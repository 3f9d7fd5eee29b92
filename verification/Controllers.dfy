/** A controller that restarts, is fed a replay synthesized from the tables, and then polls the event
    table by cursor. The reads of the replay are separate statements, between which anybody else may
    commit. */
module Controllers {
  import opened Tenancy
  import opened EventLog
  import opened Worlds
  import opened Evolution
  import opened Paging
  import T = Transactions

  datatype Phase =
    | Connecting                                               // the largest event id is read
    | Orgs                                                     // the active orgs are read
    | Projects                                                 // the active projects are read
    | Folders(order: seq<Uuid>, rows: map<Uuid, Project>)      // their folders are loaded
    | Parents(order: seq<Uuid>, rows: map<Uuid, Project>, folders: map<Uuid, Folder>)  // their orgs are loaded
    | DeadProjects                                             // the soft-deleted projects are read
    | DeadFolders(order: seq<Uuid>, rows: map<Uuid, Project>)  // their folders are loaded
    | DeadParents(order: seq<Uuid>, rows: map<Uuid, Project>, folders: map<Uuid, Folder>)  // their orgs are loaded
    | DeadOrgs                                                 // the soft-deleted orgs are read
    | Polling

  /** `backlog` has been received and not handled yet; `regarded` are the resources it regards as
      existing and `held` those it regarded so when this session began. History: `start` is the length
      of the log when the largest id was read, `replay` what the replay contained, `delivered` what has
      been handled since, and `lost` whether clean-up ever removed an event before it was fetched. */
  datatype Controller = Controller(phase: Phase, start: nat, cursor: nat, replay: seq<Event>, backlog: seq<Event>,
                                   delivered: seq<Event>, held: set<Resource>, regarded: set<Resource>, lost: bool)

  function Session(regarded: set<Resource>): Controller {
    Controller(Connecting, 0, 0, [], [], [], regarded, regarded, false)
  }

  // --- Synthesizing the replay ---

  function MaxEventId(db: Db): nat {
    if db.events == [] then 0 else db.events[|db.events| - 1].id
  }

  function OrgEvents(change: Change, order: seq<Uuid>, orgs: map<Uuid, Org>): seq<Event>
    requires forall o :: o in order ==> o in orgs
  {
    seq(|order|, i requires 0 <= i < |order| => OrgEvent(0, change, order[i], orgs[order[i]].name, 0))
  }

  function ProjectEvents(change: Change, order: seq<Uuid>, rows: map<Uuid, Project>, folders: map<Uuid, Folder>,
        orgs: map<Uuid, Org>): seq<Event>
    requires forall p :: p in order ==> p in rows
  {
    seq(|order|, i requires 0 <= i < |order| =>
      ProjectEvent(EMPTY_DB.(folders := folders, orgs := orgs), 0, change, order[i], rows[order[i]], 0))
  }

  function FolderIds(rows: map<Uuid, Project>): set<Uuid> { set p | p in rows :: rows[p].folder }

  /** The next read; `order` is the listing the query returns. */
  ghost function Read(w: World, c: Controller, order: seq<Uuid>): Controller {
    match c.phase
    case Connecting =>
      c.(start := |w.log|, cursor := MaxEventId(w.db), phase := Orgs)
    case Orgs =>
      if Lists(order, ActiveOrgs(w.db)) then
        c.(replay := c.replay + OrgEvents(Created, order, w.db.orgs), phase := Projects)
      else c
    case Projects =>
      if Lists(order, ActiveProjects(w.db)) then
        c.(phase := Folders(order, map p | p in order :: w.db.projects[p]))
      else c
    case Folders(o, rows) =>
      c.(phase := Parents(o, rows, map f | f in FolderIds(rows) && f in w.db.folders :: w.db.folders[f]))
    case Parents(o, rows, folders) =>
      if forall p :: p in o ==> p in rows then
        c.(replay := c.replay + ProjectEvents(Created, o, rows, folders, w.db.orgs), phase := DeadProjects)
      else c
    case DeadProjects =>
      if Lists(order, DeletedProjects(w.db)) then
        c.(phase := DeadFolders(order, map p | p in order :: w.db.projects[p]))
      else c
    case DeadFolders(o, rows) =>
      c.(phase := DeadParents(o, rows, map f | f in FolderIds(rows) && f in w.db.folders :: w.db.folders[f]))
    case DeadParents(o, rows, folders) =>
      if forall p :: p in o ==> p in rows then
        c.(replay := c.replay + ProjectEvents(Deleted, o, rows, folders, w.db.orgs), phase := DeadOrgs)
      else c
    case DeadOrgs =>
      if Lists(order, DeletedOrgs(w.db)) then
        var replay := c.replay + OrgEvents(Deleted, order, w.db.orgs);
        c.(replay := replay, backlog := replay, phase := Polling)
      else c
    case Polling => c
  }

  // --- Polling and handling ---

  function Regard(s: set<Resource>, e: Event): set<Resource> {
    if e.change.Created? then s + {e.Subject()} else s - {e.Subject()}
  }

  function Settle(s: set<Resource>, es: seq<Event>): set<Resource> {
    if es == [] then s else Regard(Settle(s, es[..|es| - 1]), es[|es| - 1])
  }

  /** How much of replay and log has been handled, as a position in the log. */
  function Position(c: Controller): nat {
    if |c.delivered| <= |c.replay| then c.start else c.start + |c.delivered| - |c.replay|
  }

  function Fetch(w: World, c: Controller, limit: nat): Controller {
    if c.phase.Polling? && c.backlog == [] then
      c.(backlog := Page(w.db.events, c.cursor, limit), lost := c.lost || Base(w) > Position(c))
    else c
  }

  /** The first event of the backlog is handled successfully. */
  function Deliver(c: Controller): Controller {
    if c.backlog == [] then c
    else
      var e := c.backlog[0];
      c.(backlog := c.backlog[1..], delivered := c.delivered + [e], regarded := Regard(c.regarded, e),
         cursor := if e.id > 0 then e.id else c.cursor)
  }

  /** The first event of the backlog is handled with an error: it stays, but the attempt may have had
      part of its effect. */
  function Attempt(c: Controller): Controller {
    if c.backlog != [] && c.backlog[0].change.Created? then c.(regarded := c.regarded + {c.backlog[0].Subject()}) else c
  }

  // --- The invariant ---

  /** The view when the session began. */
  function StartView(w: World, c: Controller): View
    requires c.start <= |w.log|
  {
    Fold(w.log[..c.start])
  }

  /** What every event, synthesized or from the log, agrees with: its subject is born, and dead if the
      event is a deletion; and while a created project is live the event names its org. */
  ghost predicate Plausible(v: View, used: set<Uuid>, e: Event) {
    && e.Subject() in v.born
    && (e.change.Deleted? ==> e.Subject() in v.Dead())
    && (e.change.Created? && e.kind.ProjectKind? && e.Subject() in v.live ==>
          e.resource in v.parent && e.orgId == Some(v.parent[e.resource]))
    && (e.orgId.Some? ==> e.orgId.value in used)
  }

  /** A synthesized event announces no creation of what was dead when the session began. */
  ghost predicate EventOk(v0: View, v: View, used: set<Uuid>, e: Event) {
    e.id == 0 && Plausible(v, used, e) && (e.change.Created? ==> e.Subject() !in v0.Dead())
  }

  ghost predicate ReplayOk(v0: View, v: View, used: set<Uuid>, replay: seq<Event>) {
    forall e :: e in replay ==> EventOk(v0, v, used, e)
  }

  ghost predicate Mentions(es: seq<Event>, change: Change, r: Resource) {
    exists e :: e in es && e.change == change && e.Subject() == r
  }

  /** What was live when the session began and still is has been announced. */
  ghost predicate Announced(v0: View, v: View, kind: Kind, replay: seq<Event>) {
    forall r: Resource :: r.kind == kind && r in v0.live && r in v.live ==> Mentions(replay, Created, r)
  }

  ghost predicate RowsOk(v0: View, w: World, order: seq<Uuid>, rows: map<Uuid, Project>) {
    && (forall p :: p in order <==> p in rows)
    && (forall p :: p in rows ==> Resource(ProjectKind, p) in w.View().born && Resource(ProjectKind, p) !in v0.Dead())
    && (forall p :: p in rows && p in w.db.projects ==> w.db.projects[p].folder == rows[p].folder)
    && (forall r: Resource :: r.kind.ProjectKind? && r in v0.live && r in w.View().live ==> r.id in rows)
  }

  ghost predicate FoldersOk(w: World, rows: map<Uuid, Project>, folders: map<Uuid, Folder>) {
    && (forall f :: f in folders ==> folders[f].org in w.used)
    && (forall p :: p in rows && Resource(ProjectKind, p) in w.View().live ==>
          rows[p].folder in folders && p in w.View().parent && folders[rows[p].folder].org == w.View().parent[p])
  }

  /** The soft-deleted projects that were read. */
  ghost predicate DeadRowsOk(v: View, order: seq<Uuid>, rows: map<Uuid, Project>) {
    && (forall p :: p in order <==> p in rows)
    && (forall p :: p in rows ==> Resource(ProjectKind, p) in v.Dead())
  }

  ghost predicate PhaseOk(w: World, c: Controller)
    requires c.start <= |w.log|
  {
    var v0, v := StartView(w, c), w.View();
    match c.phase
    case Connecting => c.replay == []
    case Orgs => c.replay == []
    case Projects => Announced(v0, v, OrgKind, c.replay)
    case Folders(order, rows) => Announced(v0, v, OrgKind, c.replay) && RowsOk(v0, w, order, rows)
    case Parents(order, rows, folders) =>
      Announced(v0, v, OrgKind, c.replay) && RowsOk(v0, w, order, rows) && FoldersOk(w, rows, folders)
    case DeadFolders(order, rows) =>
      Announced(v0, v, OrgKind, c.replay) && Announced(v0, v, ProjectKind, c.replay) && DeadRowsOk(v, order, rows)
    case DeadParents(order, rows, _) =>
      Announced(v0, v, OrgKind, c.replay) && Announced(v0, v, ProjectKind, c.replay) && DeadRowsOk(v, order, rows)
    case _ => Announced(v0, v, OrgKind, c.replay) && Announced(v0, v, ProjectKind, c.replay)
  }

  /** What the session has handled and received is the replay followed by the log from its start. */
  ghost predicate StreamOk(log: seq<Event>, c: Controller)
    requires c.start <= |log|
  {
    && c.delivered + c.backlog <= c.replay + log[c.start..]
    && |c.replay| <= |c.delivered| + |c.backlog|
  }

  ghost predicate CursorOk(w: World, c: Controller) {
    && Position(c) <= |w.log|
    && (c.cursor == 0 || (w.log != [] && c.cursor <= w.log[|w.log| - 1].id))
    && (forall i :: Position(c) <= i < |w.log| ==> w.log[i].id > c.cursor)
    && (forall i :: 0 <= i < Position(c) ==> w.log[i].id <= c.cursor || i < Base(w))
  }

  ghost predicate RegardOk(c: Controller) {
    && Settle(c.held, c.delivered) <= c.regarded
    && forall r :: r in c.regarded && r !in Settle(c.held, c.delivered) ==>
                     c.backlog != [] && c.backlog[0].change.Created? && c.backlog[0].Subject() == r
  }

  ghost predicate SessionOk(w: World, c: Controller) {
    && c.start <= |w.log|
    && c.held <= w.View().born
    && ReplayOk(StartView(w, c), w.View(), w.used, c.replay)
    && PhaseOk(w, c)
  }

  ghost predicate ProgressOk(w: World, c: Controller)
    requires c.start <= |w.log|
  {
    && RegardOk(c)
    && (!c.phase.Polling? ==> c.delivered == [] && c.backlog == [])
    && (!c.phase.Connecting? && !c.lost ==> CursorOk(w, c))
    && (c.phase.Polling? && !c.lost ==> StreamOk(w.log, c))
  }

  ghost predicate ControllerInv(w: World, c: Controller) {
    SessionOk(w, c) && ProgressOk(w, c)
  }

  lemma SameSession(w: World, c: Controller, c': Controller)
    requires SessionOk(w, c)
    requires c'.phase == c.phase && c'.start == c.start && c'.replay == c.replay && c'.held == c.held
    ensures SessionOk(w, c')
  {
  }

  // --- What others do keeps it ---

  /** Something born before and live after was live before. */
  lemma LiveBefore(v: View, u: View, r: Resource)
    requires Extends(v, u) && r in v.born && r in u.live
    ensures r in v.live
  {
    assert r in v.Dead() ==> r in u.Dead();
  }

  lemma PlausibleIsStable(v: View, u: View, used: set<Uuid>, used': set<Uuid>, e: Event)
    requires Plausible(v, used, e) && Extends(v, u) && used <= used' && v.live <= v.born
    ensures Plausible(u, used', e)
  {
    if e.Subject() in u.live { LiveBefore(v, u, e.Subject()); }
  }

  lemma AnnouncedIsStable(v0: View, v: View, u: View, kind: Kind, replay: seq<Event>)
    requires Announced(v0, v, kind, replay) && Extends(v0, v) && Extends(v, u) && v0.live <= v0.born
    ensures Announced(v0, u, kind, replay)
  {
    forall r: Resource | r.kind == kind && r in v0.live && r in u.live ensures Mentions(replay, Created, r) {
      LiveBefore(v, u, r);
    }
  }

  lemma RowsAreStable(v0: View, before: World, after: World, order: seq<Uuid>, rows: map<Uuid, Project>)
    requires RowsOk(v0, before, order, rows) && RowsEvolve(before.View(), before.db, after.db)
    requires Extends(v0, before.View()) && Extends(before.View(), after.View()) && v0.live <= v0.born
    ensures RowsOk(v0, after, order, rows)
  {
    forall p | p in rows && p in after.db.projects ensures after.db.projects[p].folder == rows[p].folder {
      assert T.HasRow(after.db, Resource(ProjectKind, p));
      assert T.HasRow(before.db, Resource(ProjectKind, p));
    }
    forall r: Resource | r.kind.ProjectKind? && r in v0.live && r in after.View().live ensures r.id in rows {
      LiveBefore(before.View(), after.View(), r);
    }
  }

  lemma FoldersAreStable(v0: View, before: World, after: World, order: seq<Uuid>, rows: map<Uuid, Project>,
        folders: map<Uuid, Folder>)
    requires RowsOk(v0, before, order, rows) && FoldersOk(before, rows, folders)
    requires Extends(before.View(), after.View()) && before.used <= after.used
    ensures FoldersOk(after, rows, folders)
  {
    forall p | p in rows && Resource(ProjectKind, p) in after.View().live
      ensures rows[p].folder in folders && p in after.View().parent
          && folders[rows[p].folder].org == after.View().parent[p]
    {
      LiveBefore(before.View(), after.View(), Resource(ProjectKind, p));
    }
  }

  lemma SessionViews(w: World, c: Controller)
    requires WellFormed(w.log) && c.start <= |w.log|
    ensures Extends(StartView(w, c), w.View()) && Closed(StartView(w, c)) && Closed(w.View())
  {
    PrefixExtends(w.log, c.start, |w.log|);
    assert w.log[..|w.log|] == w.log;
    WellFormedPrefix(w.log, c.start);
    WellFormedIsClosed(w.log[..c.start]);
    WellFormedIsClosed(w.log);
  }

  lemma PhaseIsStable(before: World, after: World, c: Controller)
    requires WellFormed(after.log) && Evolves(before, after) && c.start <= |before.log|
    requires ReplayOk(StartView(before, c), before.View(), before.used, c.replay) && PhaseOk(before, c)
    ensures StartView(before, c) == StartView(after, c)
    ensures ReplayOk(StartView(after, c), after.View(), after.used, c.replay) && PhaseOk(after, c)
  {
    ViewExtends(before, after);
    SessionViews(before, c);
    assert after.log[..c.start] == before.log[..c.start];
    var v0, v, u := StartView(before, c), before.View(), after.View();
    forall e | e in c.replay ensures EventOk(v0, u, after.used, e) {
      PlausibleIsStable(v, u, before.used, after.used, e);
    }
    if Announced(v0, v, OrgKind, c.replay) { AnnouncedIsStable(v0, v, u, OrgKind, c.replay); }
    if Announced(v0, v, ProjectKind, c.replay) { AnnouncedIsStable(v0, v, u, ProjectKind, c.replay); }
    match c.phase
    case Folders(order, rows) => RowsAreStable(v0, before, after, order, rows);
    case Parents(order, rows, folders) =>
      RowsAreStable(v0, before, after, order, rows);
      FoldersAreStable(v0, before, after, order, rows, folders);
    case _ =>
  }

  lemma CursorIsStable(before: World, after: World, c: Controller)
    requires Ordered(after.log, after.nextId) && Evolves(before, after) && CursorOk(before, c)
    ensures CursorOk(after, c)
  {
    var n := |before.log|;
    forall i | Position(c) <= i < |after.log| ensures after.log[i].id > c.cursor {
      if i < n { assert after.log[i] == before.log[i]; } else if n > 0 { assert after.log[n - 1] == before.log[n - 1]; }
    }
    forall i | 0 <= i < Position(c) ensures after.log[i].id <= c.cursor || i < Base(after) {
      assert after.log[i] == before.log[i];
    }
    if n > 0 { assert after.log[n - 1] == before.log[n - 1]; }
  }

  lemma StreamIsStable(before: seq<Event>, after: seq<Event>, c: Controller)
    requires before <= after && c.start <= |before| && StreamOk(before, c)
    ensures StreamOk(after, c)
  {
    assert after[c.start..] == before[c.start..] + after[|before|..];
  }

  lemma ControllerIsStable(before: World, after: World, c: Controller)
    requires EventsInv(after) && Evolves(before, after) && ControllerInv(before, c)
    ensures ControllerInv(after, c)
  {
    ViewExtends(before, after);
    PhaseIsStable(before, after, c);
    if !c.phase.Connecting? && !c.lost { CursorIsStable(before, after, c); }
    if c.phase.Polling? && !c.lost { StreamIsStable(before.log, after.log, c); }
  }

  // --- What the controller does keeps it ---

  lemma MentionsAppend(a: seq<Event>, b: seq<Event>, change: Change, r: Resource)
    ensures Mentions(a + b, change, r) <==> Mentions(a, change, r) || Mentions(b, change, r)
  {
  }

  lemma AnnouncedAppend(v0: View, v: View, kind: Kind, a: seq<Event>, b: seq<Event>)
    requires Announced(v0, v, kind, a)
    ensures Announced(v0, v, kind, a + b)
  {
    forall r: Resource | r.kind == kind && r in v0.live && r in v.live ensures Mentions(a + b, Created, r) {
      MentionsAppend(a, b, Created, r);
    }
  }

  lemma ReplayAppend(v0: View, v: View, used: set<Uuid>, a: seq<Event>, b: seq<Event>)
    requires ReplayOk(v0, v, used, a) && ReplayOk(v0, v, used, b)
    ensures ReplayOk(v0, v, used, a + b)
  {
  }

  lemma ConnectKeepsInv(w: World, c: Controller)
    requires EventsInv(w) && ControllerInv(w, c) && c.phase.Connecting?
    ensures ControllerInv(w, Read(w, c, []))
  {
    var c' := Read(w, c, []);
    var n, k := |w.log|, |w.db.events|;
    if k > 0 { assert w.db.events[k - 1] == w.log[n - 1]; }
  }

  /** A read after the first one changes the phase and extends the replay. */
  lemma ReadAdvances(w: World, c: Controller, c': Controller)
    requires ControllerInv(w, c) && !c.phase.Connecting? && !c.phase.Polling?
    requires c' == c.(phase := c'.phase, replay := c'.replay) && !c'.phase.Connecting? && !c'.phase.Polling?
    requires ReplayOk(StartView(w, c), w.View(), w.used, c'.replay) && PhaseOk(w, c')
    ensures ControllerInv(w, c')
  {
  }

  lemma CreatedOrgEvents(v0: View, v: View, used: set<Uuid>, db: Db, order: seq<Uuid>)
    requires RowsInv(db, v) && Extends(v0, v) && v.live <= v.born && Lists(order, ActiveOrgs(db))
    ensures ReplayOk(v0, v, used, OrgEvents(Created, order, db.orgs))
    ensures Announced(v0, v, OrgKind, OrgEvents(Created, order, db.orgs))
  {
    var es := OrgEvents(Created, order, db.orgs);
    forall e | e in es ensures EventOk(v0, v, used, e) {
      assert e.resource in order && e.resource in ActiveOrgs(db) && e.Subject() in v.live;
    }
    forall r: Resource | r.kind == OrgKind && r in v0.live && r in v.live ensures Mentions(es, Created, r) {
      assert r == Resource(OrgKind, r.id) && r.id in order;
      var i :| 0 <= i < |order| && order[i] == r.id;
      assert es[i] in es;
    }
  }

  lemma OrgsRead(w: World, c: Controller, order: seq<Uuid>)
    requires WellFormed(w.log) && RowsInv(w.db, w.View()) && ControllerInv(w, c) && c.phase.Orgs?
        && Lists(order, ActiveOrgs(w.db))
    ensures ControllerInv(w, Read(w, c, order))
  {
    SessionViews(w, c);
    CreatedOrgEvents(StartView(w, c), w.View(), w.used, w.db, order);
    assert c.replay + OrgEvents(Created, order, w.db.orgs) == OrgEvents(Created, order, w.db.orgs);
    ReadAdvances(w, c, Read(w, c, order));
  }

  lemma ActiveRowsOk(v0: View, w: World, order: seq<Uuid>)
    requires RowsInv(w.db, w.View()) && Extends(v0, w.View()) && w.View().live <= w.View().born
        && Lists(order, ActiveProjects(w.db))
    ensures RowsOk(v0, w, order, map p | p in order :: w.db.projects[p])
  {
    var rows, v := map p | p in order :: w.db.projects[p], w.View();
    forall p | p in rows ensures Resource(ProjectKind, p) in v.born && Resource(ProjectKind, p) !in v0.Dead() {
      assert p in ActiveProjects(w.db);
      assert Resource(ProjectKind, p) in v.live;
    }
    forall r: Resource | r.kind.ProjectKind? && r in v0.live && r in v.live ensures r.id in rows {
      assert r == Resource(ProjectKind, r.id);
      assert r.id in ActiveProjects(w.db);
    }
  }

  lemma ProjectsRead(w: World, c: Controller, order: seq<Uuid>)
    requires WellFormed(w.log) && RowsInv(w.db, w.View()) && ControllerInv(w, c) && c.phase.Projects?
        && Lists(order, ActiveProjects(w.db))
    ensures ControllerInv(w, Read(w, c, order))
  {
    SessionViews(w, c);
    ActiveRowsOk(StartView(w, c), w, order);
    ReadAdvances(w, c, Read(w, c, order));
  }

  lemma LoadedFoldersOk(v0: View, w: World, order: seq<Uuid>, rows: map<Uuid, Project>)
    requires RowsInv(w.db, w.View()) && w.db.orgs.Keys <= w.used && FoldersOwned(w.db.folders, w.db.orgs)
        && RowsOk(v0, w, order, rows)
    ensures FoldersOk(w, rows, map f | f in FolderIds(rows) && f in w.db.folders :: w.db.folders[f])
  {
    forall p | p in rows && Resource(ProjectKind, p) in w.View().live
      ensures rows[p].folder in FolderIds(rows) && p in w.db.projects
    {
    }
  }

  lemma FoldersRead(w: World, c: Controller)
    requires RowsInv(w.db, w.View()) && w.db.orgs.Keys <= w.used && FoldersOwned(w.db.folders, w.db.orgs)
    requires ControllerInv(w, c) && c.phase.Folders?
    ensures ControllerInv(w, Read(w, c, []))
  {
    LoadedFoldersOk(StartView(w, c), w, c.phase.order, c.phase.rows);
    ReadAdvances(w, c, Read(w, c, []));
  }

  lemma CreatedProjectEvents(v0: View, w: World, order: seq<Uuid>, rows: map<Uuid, Project>, folders: map<Uuid, Folder>)
    requires OrgRows(w.db.orgs, w.View()) && Closed(w.View()) && RowsOk(v0, w, order, rows)
        && FoldersOk(w, rows, folders)
    ensures ReplayOk(v0, w.View(), w.used, ProjectEvents(Created, order, rows, folders, w.db.orgs))
  {
    var es, v := ProjectEvents(Created, order, rows, folders, w.db.orgs), w.View();
    forall e | e in es ensures EventOk(v0, v, w.used, e) {
      assert e.resource in order;
      if e.Subject() in v.live {
        assert Resource(OrgKind, v.parent[e.resource]) in v.live;
      }
    }
  }

  lemma CreatedProjectsAnnounced(v0: View, w: World, order: seq<Uuid>, rows: map<Uuid, Project>,
        folders: map<Uuid, Folder>)
    requires RowsOk(v0, w, order, rows)
    ensures Announced(v0, w.View(), ProjectKind, ProjectEvents(Created, order, rows, folders, w.db.orgs))
  {
    var es, v := ProjectEvents(Created, order, rows, folders, w.db.orgs), w.View();
    forall r: Resource | r.kind == ProjectKind && r in v0.live && r in v.live ensures Mentions(es, Created, r) {
      assert r.id in order;
      var i :| 0 <= i < |order| && order[i] == r.id;
      assert es[i] in es && es[i].Subject() == r;
    }
  }

  lemma ParentsRead(w: World, c: Controller)
    requires WellFormed(w.log) && RowsInv(w.db, w.View()) && ControllerInv(w, c) && c.phase.Parents?
    ensures ControllerInv(w, Read(w, c, []))
  {
    var v0, v := StartView(w, c), w.View();
    SessionViews(w, c);
    var order, rows, folders := c.phase.order, c.phase.rows, c.phase.folders;
    var es := ProjectEvents(Created, order, rows, folders, w.db.orgs);
    CreatedProjectEvents(v0, w, order, rows, folders);
    CreatedProjectsAnnounced(v0, w, order, rows, folders);
    AnnouncedAppend(v0, v, OrgKind, c.replay, es);
    AnnouncedPrepend(v0, v, ProjectKind, c.replay, es);
    ReplayAppend(v0, v, w.used, c.replay, es);
    ReadAdvances(w, c, Read(w, c, []));
  }

  lemma AnnouncedPrepend(v0: View, v: View, kind: Kind, a: seq<Event>, b: seq<Event>)
    requires Announced(v0, v, kind, b)
    ensures Announced(v0, v, kind, a + b)
  {
    forall r: Resource | r.kind == kind && r in v0.live && r in v.live ensures Mentions(a + b, Created, r) {
      MentionsAppend(a, b, Created, r);
    }
  }

  lemma DeadProjectsRead(w: World, c: Controller, order: seq<Uuid>)
    requires RowsInv(w.db, w.View()) && ControllerInv(w, c)
    requires c.phase.DeadProjects? && Lists(order, DeletedProjects(w.db))
    ensures ControllerInv(w, Read(w, c, order))
  {
    assert forall p :: p in order ==> Resource(ProjectKind, p) in w.View().Dead();
    ReadAdvances(w, c, Read(w, c, order));
  }

  lemma DeadFoldersRead(w: World, c: Controller)
    requires ControllerInv(w, c) && c.phase.DeadFolders?
    ensures ControllerInv(w, Read(w, c, []))
  {
    ReadAdvances(w, c, Read(w, c, []));
  }

  lemma DeletedProjectEvents(v0: View, w: World, order: seq<Uuid>, rows: map<Uuid, Project>, folders: map<Uuid, Folder>)
    requires w.db.orgs.Keys <= w.used && DeadRowsOk(w.View(), order, rows)
    ensures ReplayOk(v0, w.View(), w.used, ProjectEvents(Deleted, order, rows, folders, w.db.orgs))
  {
    forall e | e in ProjectEvents(Deleted, order, rows, folders, w.db.orgs) ensures EventOk(v0, w.View(), w.used, e) {
      assert e.resource in order;
    }
  }

  lemma DeadParentsRead(w: World, c: Controller)
    requires w.db.orgs.Keys <= w.used && ControllerInv(w, c) && c.phase.DeadParents?
    ensures ControllerInv(w, Read(w, c, []))
  {
    var v0, v := StartView(w, c), w.View();
    var order, rows, folders := c.phase.order, c.phase.rows, c.phase.folders;
    var es := ProjectEvents(Deleted, order, rows, folders, w.db.orgs);
    DeletedProjectEvents(v0, w, order, rows, folders);
    AnnouncedAppend(v0, v, OrgKind, c.replay, es);
    AnnouncedAppend(v0, v, ProjectKind, c.replay, es);
    ReplayAppend(v0, v, w.used, c.replay, es);
    ReadAdvances(w, c, Read(w, c, []));
  }

  lemma DeletedOrgEvents(v0: View, w: World, order: seq<Uuid>)
    requires RowsInv(w.db, w.View()) && Lists(order, DeletedOrgs(w.db))
    ensures ReplayOk(v0, w.View(), w.used, OrgEvents(Deleted, order, w.db.orgs))
  {
    forall e | e in OrgEvents(Deleted, order, w.db.orgs) ensures EventOk(v0, w.View(), w.used, e) {
      assert e.resource in order && e.resource in DeletedOrgs(w.db);
    }
  }

  lemma DeadOrgsRead(w: World, c: Controller, order: seq<Uuid>)
    requires RowsInv(w.db, w.View()) && ControllerInv(w, c)
    requires c.phase.DeadOrgs? && Lists(order, DeletedOrgs(w.db))
    ensures ControllerInv(w, Read(w, c, order))
  {
    var v0, v := StartView(w, c), w.View();
    var es := OrgEvents(Deleted, order, w.db.orgs);
    DeletedOrgEvents(v0, w, order);
    AnnouncedAppend(v0, v, OrgKind, c.replay, es);
    AnnouncedAppend(v0, v, ProjectKind, c.replay, es);
    ReplayAppend(v0, v, w.used, c.replay, es);
    ReadAdvances(w, c, c.(replay := c.replay + es));
    StartPolling(w, c.(replay := c.replay + es));
  }

  /** Once the replay is complete it is all to be handled. */
  lemma StartPolling(w: World, c: Controller)
    requires ControllerInv(w, c) && c.phase.DeadOrgs?
    ensures ControllerInv(w, c.(backlog := c.replay, phase := Polling))
  {
    assert [] + c.replay == c.replay;
    assert c.replay <= c.replay + w.log[c.start..];
  }

  lemma ReadKeepsInv(w: World, c: Controller, order: seq<Uuid>)
    requires Inv(w) && ControllerInv(w, c)
    ensures ControllerInv(w, Read(w, c, order))
  {
    match c.phase
    case Connecting => ConnectKeepsInv(w, c);
    case Orgs => if Lists(order, ActiveOrgs(w.db)) { OrgsRead(w, c, order); }
    case Projects => if Lists(order, ActiveProjects(w.db)) { ProjectsRead(w, c, order); }
    case Folders(_, _) => FoldersRead(w, c);
    case Parents(_, _, _) => ParentsRead(w, c);
    case DeadProjects => if Lists(order, DeletedProjects(w.db)) { DeadProjectsRead(w, c, order); }
    case DeadFolders(_, _) => DeadFoldersRead(w, c);
    case DeadParents(_, _, _) => DeadParentsRead(w, c);
    case DeadOrgs => if Lists(order, DeletedOrgs(w.db)) { DeadOrgsRead(w, c, order); }
    case Polling =>
  }

  lemma SettleAppend(s: set<Resource>, es: seq<Event>, e: Event)
    ensures Settle(s, es + [e]) == Regard(Settle(s, es), e)
  {
    assert (es + [e])[..|es|] == es;
  }

  lemma PageOfSuffix(events: seq<Event>, log: seq<Event>, cursor: nat, pos: nat, limit: nat)
    requires IsSuffix(events, log) && |log| - |events| <= pos <= |log|
    requires forall i :: pos <= i < |log| ==> log[i].id > cursor
    requires forall i :: |log| - |events| <= i < pos ==> log[i].id <= cursor
    ensures var page := Page(events, cursor, limit);
            pos + |page| <= |log| && page == log[pos..pos + |page|]
  {
    var base := |log| - |events|;
    assert forall i :: 0 <= i < |events| ==> events[i] == log[base + i];
    AfterIsSuffix(events, cursor, pos - base);
    assert events[pos - base..] == log[pos..];
  }

  /** Without loss the next page is the next stretch of the log. */
  lemma PageIsNext(w: World, c: Controller, limit: nat)
    requires IsSuffix(w.db.events, w.log) && CursorOk(w, c) && Base(w) <= Position(c)
    ensures var page := Page(w.db.events, c.cursor, limit);
            Position(c) + |page| <= |w.log| && page == w.log[Position(c)..Position(c) + |page|]
  {
    PageOfSuffix(w.db.events, w.log, c.cursor, Position(c), limit);
  }

  lemma SliceOfStream(replay: seq<Event>, log: seq<Event>, start: nat, k: nat, n: nat)
    requires start <= |log| && |replay| <= k && start + k - |replay| + n <= |log|
    ensures k + n <= |replay + log[start..]|
    ensures (replay + log[start..])[k..k + n] == log[start + k - |replay|..start + k - |replay| + n]
  {
    var all, pos := replay + log[start..], start + k - |replay|;
    var x, y := all[k..k + n], log[pos..pos + n];
    forall i | 0 <= i < |x| ensures x[i] == y[i] {
      assert all[k + i] == log[start..][k + i - |replay|];
    }
  }

  lemma PrefixExtended(all: seq<Event>, k: nat, n: nat)
    requires k + n <= |all|
    ensures all[..k] + all[k..k + n] <= all
  {
  }

  lemma StreamFetch(log: seq<Event>, c: Controller, page: seq<Event>)
    requires c.start <= |log| && StreamOk(log, c) && c.backlog == [] && Position(c) + |page| <= |log|
    requires page == log[Position(c)..Position(c) + |page|]
    ensures StreamOk(log, c.(backlog := page))
  {
    var all, k := c.replay + log[c.start..], |c.delivered|;
    assert c.delivered == c.delivered + c.backlog;
    assert c.delivered == all[..k];
    SliceOfStream(c.replay, log, c.start, k, |page|);
    PrefixExtended(all, k, |page|);
  }

  lemma FetchProgresses(w: World, c: Controller, limit: nat)
    requires IsSuffix(w.db.events, w.log) && c.start <= |w.log| && ProgressOk(w, c)
    ensures ProgressOk(w, Fetch(w, c, limit))
  {
    var c' := Fetch(w, c, limit);
    if c.phase.Polling? && c.backlog == [] && !c'.lost {
      PageIsNext(w, c, limit);
      StreamFetch(w.log, c, c'.backlog);
    }
  }

  lemma FetchKeepsInv(w: World, c: Controller, limit: nat)
    requires EventsInv(w) && ControllerInv(w, c)
    ensures ControllerInv(w, Fetch(w, c, limit))
  {
    SameSession(w, c, Fetch(w, c, limit));
    FetchProgresses(w, c, limit);
  }

  lemma AttemptKeepsInv(w: World, c: Controller)
    requires ControllerInv(w, c)
    ensures ControllerInv(w, Attempt(c))
  {
    SameSession(w, c, Attempt(c));
  }

  lemma DeliverKeepsRegard(c: Controller)
    requires RegardOk(c)
    ensures RegardOk(Deliver(c))
  {
    if c.backlog != [] {
      SettleAppend(c.held, c.delivered, c.backlog[0]);
    }
  }

  /** The event about to be handled is the next one of the replay or, once that is done, of the log. */
  lemma NextIs(w: World, c: Controller)
    requires c.start <= |w.log| && StreamOk(w.log, c) && c.backlog != [] && Position(c) <= |w.log|
    ensures |c.delivered| < |c.replay| ==> c.backlog[0] == c.replay[|c.delivered|]
    ensures |c.delivered| >= |c.replay| ==> Position(c) < |w.log| && c.backlog[0] == w.log[Position(c)]
  {
    var all, k := c.replay + w.log[c.start..], |c.delivered|;
    assert (c.delivered + c.backlog)[k] == c.backlog[0];
    assert all[k] == c.backlog[0];
  }

  lemma DeliverStream(log: seq<Event>, c: Controller)
    requires c.start <= |log| && StreamOk(log, c)
    ensures StreamOk(log, Deliver(c))
  {
    if c.backlog != [] {
      assert Deliver(c).delivered + Deliver(c).backlog == c.delivered + c.backlog;
    }
  }

  lemma DeliverCursor(w: World, c: Controller)
    requires Ordered(w.log, w.nextId) && CursorOk(w, c) && c.start <= |w.log| && StreamOk(w.log, c)
    requires forall e :: e in c.replay ==> e.id == 0
    ensures CursorOk(w, Deliver(c))
  {
    if c.backlog != [] {
      NextIs(w, c);
      if |c.delivered| < |c.replay| {
        assert c.backlog[0] in c.replay;
      } else {
        var i := Position(c);
        assert w.log[i].id <= w.log[|w.log| - 1].id by {
          assert i == |w.log| - 1 || w.log[i].id < w.log[|w.log| - 1].id;
        }
      }
    }
  }

  lemma DeliverKeepsInv(w: World, c: Controller)
    requires EventsInv(w) && ControllerInv(w, c)
    ensures ControllerInv(w, Deliver(c))
  {
    SameSession(w, c, Deliver(c));
    DeliverKeepsRegard(c);
    if c.phase.Polling? && !c.lost {
      DeliverStream(w.log, c);
      DeliverCursor(w, c);
    }
  }

  // --- Convergence ---

  lemma {:induction false} SettleUnmentioned(s: set<Resource>, es: seq<Event>, r: Resource)
    ensures !Mentions(es, Created, r) && !Mentions(es, Deleted, r) ==> (r in Settle(s, es) <==> r in s)
    ensures Mentions(es, Created, r) && !Mentions(es, Deleted, r) ==> r in Settle(s, es)
    ensures Mentions(es, Deleted, r) && !Mentions(es, Created, r) ==> r !in Settle(s, es)
    decreases |es|
  {
    if es != [] {
      var init, last := es[..|es| - 1], es[|es| - 1];
      SettleUnmentioned(s, init, r);
      assert es == init + [last];
      MentionsAppend(init, [last], Created, r);
      MentionsAppend(init, [last], Deleted, r);
      assert Mentions([last], last.change, last.Subject()) by { assert last in [last]; }
      assert forall change: Change :: Mentions([last], change, r) <==> last.change == change && last.Subject() == r;
    }
  }

  /** Folding the log from a start: a resource created or deleted since is regarded as the log has it,
      any other as it was. */
  ghost predicate SettledLike(v0: View, v: View, s: set<Resource>, t: set<Resource>, r: Resource) {
    r in t <==> if r in v.born - v0.born || r in v.Dead() - v0.Dead() then r in v.live else r in s
  }

  lemma SettleStep(v0: View, v: View, s: set<Resource>, t: set<Resource>, r: Resource, e: Event)
    requires SettledLike(v0, v, s, t, r) && Extends(v0, v) && Admissible(v, e) && v.live <= v.born
    ensures SettledLike(v0, Apply(v, e), s, Regard(t, e), r)
  {
    if e.change.Created? { assert e.Subject() !in v.born; }
  }

  lemma LogStep(log: seq<Event>, start: nat, n: nat)
    requires WellFormed(log) && start <= n < |log|
    ensures var v := Fold(log[..n]);
            Closed(v) && Admissible(v, log[n]) && Fold(log[..n + 1]) == Apply(v, log[n])
                && Extends(Fold(log[..start]), v)
  {
    FoldAt(log, n);
    assert AdmissibleAt(log, n);
    PrefixExtends(log, start, n);
    WellFormedPrefix(log, n);
    WellFormedIsClosed(log[..n]);
  }

  lemma SettleSnoc(s: set<Resource>, log: seq<Event>, start: nat, n: nat)
    requires start < n <= |log|
    ensures Settle(s, log[start..n]) == Regard(Settle(s, log[start..n - 1]), log[n - 1])
  {
    assert log[start..n] == log[start..n - 1] + [log[n - 1]];
    SettleAppend(s, log[start..n - 1], log[n - 1]);
  }

  lemma SettleLogStep(s: set<Resource>, log: seq<Event>, start: nat, n: nat, r: Resource)
    requires WellFormed(log) && start < n <= |log|
    requires SettledLike(Fold(log[..start]), Fold(log[..n - 1]), s, Settle(s, log[start..n - 1]), r)
    ensures SettledLike(Fold(log[..start]), Fold(log[..n]), s, Settle(s, log[start..n]), r)
  {
    LogStep(log, start, n - 1);
    SettleStep(Fold(log[..start]), Fold(log[..n - 1]), s, Settle(s, log[start..n - 1]), r, log[n - 1]);
    SettleSnoc(s, log, start, n);
  }

  lemma {:induction false} SettleLog(s: set<Resource>, log: seq<Event>, start: nat, n: nat, r: Resource)
    requires WellFormed(log) && start <= n <= |log|
    ensures SettledLike(Fold(log[..start]), Fold(log[..n]), s, Settle(s, log[start..n]), r)
    decreases n
  {
    if start < n {
      SettleLog(s, log, start, n - 1, r);
      SettleLogStep(s, log, start, n, r);
    }
  }

  lemma {:induction false} SettleConcat(s: set<Resource>, a: seq<Event>, b: seq<Event>)
    ensures Settle(s, a + b) == Settle(Settle(s, a), b)
    decreases |b|
  {
    if b == [] {
      assert a + b == a;
    } else {
      SettleConcat(s, a, b[..|b| - 1]);
      assert (a + b)[..|a + b| - 1] == a + b[..|b| - 1];
    }
  }

  ghost predicate CaughtUp(w: World, c: Controller) {
    c.phase.Polling? && !c.lost && c.backlog == [] && Position(c) == |w.log|
  }

  /** What the controller keeps regarding as existing though it was deleted before the session began:
      the replay did not list it, its row being gone. */
  ghost function Orphans(w: World, c: Controller): set<Resource>
    requires c.start <= |w.log|
  {
    set r | r in c.held && r in StartView(w, c).Dead() && !Mentions(c.replay, Deleted, r)
  }

  lemma DeliveredIs(log: seq<Event>, c: Controller)
    requires c.start <= |log| && StreamOk(log, c) && RegardOk(c) && c.backlog == [] && Position(c) == |log|
    ensures c.delivered == c.replay + log[c.start..]
    ensures c.regarded == Settle(Settle(c.held, c.replay), log[c.start..])
  {
    assert c.delivered == c.delivered + c.backlog;
    SettleConcat(c.held, c.replay, log[c.start..]);
  }

  /** The case analysis on a resource: live, dead since the session began, dead before, or unborn. */
  lemma Verdict(v0: View, v: View, held: set<Resource>, replay: seq<Event>, t: set<Resource>, r: Resource)
    requires Extends(v0, v) && v.live <= v.born && v0.live <= v0.born && held <= v.born
    requires SettledLike(v0, v, Settle(held, replay), t, r)
    requires Mentions(replay, Created, r) ==> r in v.born && r !in v0.Dead()
    requires Mentions(replay, Deleted, r) ==> r in v.Dead()
    requires r in v0.live && r in v.live ==> Mentions(replay, Created, r)
    ensures r in t <==> r in v.live || (r in held && r in v0.Dead() && !Mentions(replay, Deleted, r))
  {
    SettleUnmentioned(held, replay, r);
    if r in v0.Dead() { assert r in v.Dead(); }
  }

  lemma RegardedIs(w: World, c: Controller, r: Resource)
    requires WellFormed(w.log) && ControllerInv(w, c) && CaughtUp(w, c)
    ensures r in c.regarded <==> r in w.View().live || r in Orphans(w, c)
  {
    var v0, v, t := StartView(w, c), w.View(), Settle(c.held, c.replay);
    assert SettledLike(v0, v, t, c.regarded, r) by {
      DeliveredIs(w.log, c);
      SettleLog(t, w.log, c.start, |w.log|, r);
      assert w.log[..|w.log|] == w.log && w.log[c.start..] == w.log[c.start..|w.log|];
    }
    SessionViews(w, c);
    ReplayMentions(v0, v, w.used, c.replay, r);
    Verdict(v0, v, c.held, c.replay, c.regarded, r);
  }

  lemma ReplayMentions(v0: View, v: View, used: set<Uuid>, replay: seq<Event>, r: Resource)
    requires ReplayOk(v0, v, used, replay)
    ensures Mentions(replay, Created, r) ==> r in v.born && r !in v0.Dead()
    ensures Mentions(replay, Deleted, r) ==> r in v.Dead()
  {
  }

  /** Replay then poll converges, whatever was committed between the reads: once the cursor has reached
      the last event, the controller regards as existing exactly the live resources and the orphans. */
  lemma Converges(w: World, c: Controller)
    requires WellFormed(w.log) && ControllerInv(w, c) && CaughtUp(w, c)
    ensures c.regarded == w.View().live + Orphans(w, c)
    ensures w.View().live !! Orphans(w, c)
    ensures c.regarded == w.View().live <==> Orphans(w, c) == {}
  {
    SessionViews(w, c);
    forall r ensures r in c.regarded <==> r in w.View().live || r in Orphans(w, c) { RegardedIs(w, c, r); }
    forall r | r in w.View().live ensures r !in Orphans(w, c) {
      assert r in StartView(w, c).Dead() ==> r in w.View().Dead();
    }
  }

  // --- Events received, whether or not some were lost ---

  lemma LogIsPlausible(w: World, i: nat)
    requires WellFormed(w.log) && i < |w.log| && forall r :: r in w.View().born ==> r.id in w.used
    ensures Plausible(w.View(), w.used, w.log[i])
  {
    var n, e := |w.log|, w.log[i];
    SubjectAfter(w.log, i, n);
    assert w.log[..n] == w.log;
    assert AdmissibleAt(w.log, i);
    FoldAt(w.log, i);
    PrefixExtends(w.log, i, n);
    PrefixExtends(w.log, i + 1, n);
    WellFormedPrefix(w.log, i);
    WellFormedIsClosed(w.log[..i]);
    if e.kind.ProjectKind? { assert Resource(OrgKind, e.orgId.value) in Fold(w.log[..i]).born; }
  }

  ghost predicate ReceiptsOk(w: World, c: Controller) {
    && c.regarded <= w.View().born
    && forall e :: e in c.backlog ==> Plausible(w.View(), w.used, e)
  }

  lemma ReceiptsAreStable(before: World, after: World, c: Controller)
    requires WellFormed(after.log) && Evolves(before, after) && ReceiptsOk(before, c)
    ensures ReceiptsOk(after, c)
  {
    ViewExtends(before, after);
    WellFormedIsClosed(before.log);
    forall e | e in c.backlog ensures Plausible(after.View(), after.used, e) {
      PlausibleIsStable(before.View(), after.View(), before.used, after.used, e);
    }
  }

  lemma ReadKeepsReceipts(w: World, c: Controller, order: seq<Uuid>)
    requires ReceiptsOk(w, c) && Read(w, c, order).start <= |w.log|
    requires ReplayOk(StartView(w, Read(w, c, order)), w.View(), w.used, Read(w, c, order).replay)
    ensures ReceiptsOk(w, Read(w, c, order))
  {
    var c' := Read(w, c, order);
    assert c'.backlog == c.backlog || c'.backlog == c'.replay;
  }

  lemma {:induction false} PageIsFromTable(events: seq<Event>, cursor: nat, e: Event)
    requires e in After(events, cursor)
    ensures e in events
    decreases |events|
  {
    if e in After(events[1..], cursor) { PageIsFromTable(events[1..], cursor, e); }
  }

  lemma FetchKeepsReceipts(w: World, c: Controller, limit: nat)
    requires EventsInv(w) && ReceiptsOk(w, c) && forall r :: r in w.View().born ==> r.id in w.used
    ensures ReceiptsOk(w, Fetch(w, c, limit))
  {
    var c' := Fetch(w, c, limit);
    forall e | e in c'.backlog ensures Plausible(w.View(), w.used, e) {
      if c.phase.Polling? && c.backlog == [] {
        assert e in After(w.db.events, c.cursor);
        PageIsFromTable(w.db.events, c.cursor, e);
        assert e in w.log;
        var i :| 0 <= i < |w.log| && w.log[i] == e;
        LogIsPlausible(w, i);
      }
    }
  }

  lemma SessionKeepsInv(w: World, regarded: set<Resource>)
    requires regarded <= w.View().born
    ensures ControllerInv(w, Session(regarded)) && ReceiptsOk(w, Session(regarded))
  {
  }

  lemma DeliverKeepsReceipts(w: World, c: Controller)
    requires ReceiptsOk(w, c)
    ensures ReceiptsOk(w, Deliver(c)) && ReceiptsOk(w, Attempt(c))
  {
    assert forall e :: e in Deliver(c).backlog ==> e in c.backlog;
    if c.backlog != [] { assert c.backlog[0] in c.backlog; }
  }
}
