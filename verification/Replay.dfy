/** The replay as one snapshot of the tables: what it lists, and that the separate reads of a session
    nobody disturbs amount to it. */
module Replays {
  import opened Tenancy
  import opened EventLog
  import opened Worlds
  import opened Controllers
  import Paging
  import S = Stores
  import T = Transactions

  datatype Orders = Orders(orgs: seq<Uuid>, projects: seq<Uuid>, deadProjects: seq<Uuid>, deadOrgs: seq<Uuid>)

  ghost predicate ListsRows(db: Db, o: Orders) {
    && Lists(o.orgs, ActiveOrgs(db)) && Lists(o.projects, ActiveProjects(db))
    && Lists(o.deadProjects, DeletedProjects(db)) && Lists(o.deadOrgs, DeletedOrgs(db))
  }

  ghost function Snapshot(db: Db, o: Orders): seq<Event>
    requires ListsRows(db, o)
  {
    OrgEvents(Created, o.orgs, db.orgs)
    + ProjectEvents(Created, o.projects, db.projects, db.folders, db.orgs)
    + ProjectEvents(Deleted, o.deadProjects, db.projects, db.folders, db.orgs)
    + OrgEvents(Deleted, o.deadOrgs, db.orgs)
  }

  // --- Synthesis in one transaction ---

  /** The largest event id and the events for the rows: active orgs, active projects, deleted projects,
      deleted orgs. */
  method SynthesizeReplayEvents(db: Db, reliable: bool) returns (r: Result<(seq<Event>, nat)>, ghost o: Orders)
    ensures r.Err? ==> r.error.Unavailable? && !reliable
    ensures r.Ok? ==> ListsRows(db, o) && r.value.0 == Snapshot(db, o) && r.value.1 == MaxEventId(db)
  {
    o := Orders([], [], [], []);
    var down := S.Fails(reliable);
    if down { return Err(Unavailable), o; }
    var maxId := if |db.events| == 0 then 0 else db.events[|db.events| - 1].id;
    down := S.Fails(reliable);
    if down { return Err(Unavailable), o; }
    var active := S.Listing(set x | x in db.orgs && !db.orgs[x].deleted);
    var created := AppendOrgs(db, Created, active);
    down := S.Fails(reliable);
    if down { return Err(Unavailable), o; }
    var activeProjects := S.Listing(set x | x in db.projects && !db.projects[x].deleted);
    var createdProjects := AppendProjects(db, Created, activeProjects);
    down := S.Fails(reliable);
    if down { return Err(Unavailable), o; }
    var deletedProjects := S.Listing(set x | x in db.projects && db.projects[x].deleted);
    var gone := AppendProjects(db, Deleted, deletedProjects);
    down := S.Fails(reliable);
    if down { return Err(Unavailable), o; }
    var deletedOrgs := S.Listing(set x | x in db.orgs && db.orgs[x].deleted);
    var goneOrgs := AppendOrgs(db, Deleted, deletedOrgs);
    o := Orders(active, activeProjects, deletedProjects, deletedOrgs);
    return Ok((created + createdProjects + gone + goneOrgs, maxId)), o;
  }

  method AppendOrgs(db: Db, change: Change, order: seq<Uuid>) returns (events: seq<Event>)
    requires forall x :: x in order ==> x in db.orgs
    ensures events == OrgEvents(change, order, db.orgs)
  {
    events := [];
    for i := 0 to |order|
      invariant |events| == i && events == OrgEvents(change, order, db.orgs)[..i]
    {
      events := events + [Event(0, change, OrgKind, order[i], db.orgs[order[i]].name, None, None, None, 0)];
    }
  }

  method AppendProjects(db: Db, change: Change, order: seq<Uuid>) returns (events: seq<Event>)
    requires forall x :: x in order ==> x in db.projects
    ensures events == ProjectEvents(change, order, db.projects, db.folders, db.orgs)
  {
    events := [];
    for i := 0 to |order|
      invariant |events| == i && events == ProjectEvents(change, order, db.projects, db.folders, db.orgs)[..i]
    {
      var p := db.projects[order[i]];
      var e := Event(0, change, ProjectKind, order[i], p.name, None, None, None, 0);
      if p.folder in db.folders {
        e := e.(folderId := Some(p.folder));
        var o := db.folders[p.folder].org;
        if o in db.orgs {
          e := e.(orgId := Some(o), orgName := Some(db.orgs[o].name));
        }
      }
      events := events + [e];
    }
  }

  /** A query with replay gets the whole synthesized list and the cursor that the log continues from; any
      other query gets the next page. */
  method GetEvents(db: Db, reliable: bool, controller: string, replay: bool, after: Paging.Param, limit: Paging.Param)
    returns (r: Paging.Response, ghost o: Orders)
    requires Paging.Ascending(db.events)
    ensures controller == "" ==> r.BadRequest?
    ensures reliable ==> !r.ServerError?
    ensures controller != "" && replay ==> !r.BadRequest?
    ensures replay && r.Events? ==> ListsRows(db, o) && r.events == Snapshot(db, o) && r.lastEventId == MaxEventId(db)
    ensures !replay ==> (r.BadRequest? <==> !Paging.ValidQuery(controller, after, limit))
    ensures !replay && r.Events? ==>
              var cursor := if after.Number? then after.n else 0;
              var bound := if limit.Number? then limit.n else Paging.DEFAULT_LIMIT;
              r.events == Paging.Page(db.events, cursor, bound) && r.lastEventId == Paging.LastId(r.events, cursor)
  {
    o := Orders([], [], [], []);
    if controller == "" {
      return Paging.BadRequest, o;
    }
    if replay {
      var list;
      list, o := SynthesizeReplayEvents(db, reliable);
      if list.Err? { return Paging.ServerError, o; }
      return Paging.Events(list.value.0, list.value.1), o;
    }
    r := Paging.PollEvents(db.events, controller, after, limit);
    if r.Events? {
      var down := S.Fails(reliable);
      if down { r := Paging.ServerError; }
    }
  }

  // --- What it lists ---

  function Subjects(es: seq<Event>): (s: seq<Resource>)
    ensures |s| == |es|
  {
    seq(|es|, i requires 0 <= i < |es| => es[i].Subject())
  }

  ghost function Rows(db: Db): set<Resource> {
    (set o | o in db.orgs :: Resource(OrgKind, o)) + (set p | p in db.projects :: Resource(ProjectKind, p))
  }

  lemma SubjectsOf(db: Db, o: Orders, r: Resource)
    requires ListsRows(db, o)
    ensures r in Subjects(OrgEvents(Created, o.orgs, db.orgs)) <==> r.kind.OrgKind? && T.IsActive(db, r)
    ensures r in Subjects(ProjectEvents(Created, o.projects, db.projects, db.folders, db.orgs)) <==>
        r.kind.ProjectKind? && T.IsActive(db, r)
    ensures r in Subjects(ProjectEvents(Deleted, o.deadProjects, db.projects, db.folders, db.orgs)) <==>
              r.kind.ProjectKind? && T.HasRow(db, r) && !T.IsActive(db, r)
    ensures r in Subjects(OrgEvents(Deleted, o.deadOrgs, db.orgs)) <==>
        r.kind.OrgKind? && T.HasRow(db, r) && !T.IsActive(db, r)
  {
    OrgSubjects(Created, o.orgs, db.orgs, r);
    ProjectSubjects(Created, o.projects, db, r);
    ProjectSubjects(Deleted, o.deadProjects, db, r);
    OrgSubjects(Deleted, o.deadOrgs, db.orgs, r);
  }

  lemma OrgSubjects(change: Change, order: seq<Uuid>, orgs: map<Uuid, Org>, r: Resource)
    requires forall x :: x in order ==> x in orgs
    ensures r in Subjects(OrgEvents(change, order, orgs)) <==> r.kind.OrgKind? && r.id in order
  {
    var s := Subjects(OrgEvents(change, order, orgs));
    if r.kind.OrgKind? && r.id in order {
      var i :| 0 <= i < |order| && order[i] == r.id;
      assert s[i] == r;
    }
  }

  lemma ProjectSubjects(change: Change, order: seq<Uuid>, db: Db, r: Resource)
    requires forall x :: x in order ==> x in db.projects
    ensures r in Subjects(ProjectEvents(change, order, db.projects, db.folders, db.orgs)) <==>
        r.kind.ProjectKind? && r.id in order
  {
    var s := Subjects(ProjectEvents(change, order, db.projects, db.folders, db.orgs));
    if r.kind.ProjectKind? && r.id in order {
      var i :| 0 <= i < |order| && order[i] == r.id;
      assert s[i] == r;
    }
  }

  lemma ListsConcat<X(!new)>(a: seq<X>, b: seq<X>, s: set<X>, t: set<X>)
    requires Lists(a, s) && Lists(b, t) && s !! t
    ensures Lists(a + b, s + t)
  {
    forall i, j | 0 <= i < j < |a + b| ensures (a + b)[i] != (a + b)[j] {
      if i < |a| <= j { assert a[i] in s && b[j - |a|] in t; }
    }
  }

  lemma SubjectsConcat(a: seq<Event>, b: seq<Event>)
    ensures Subjects(a + b) == Subjects(a) + Subjects(b)
  {
  }

  lemma FourLists(a: seq<Event>, b: seq<Event>, c: seq<Event>, d: seq<Event>,
                  s: set<Resource>, t: set<Resource>, u: set<Resource>, v: set<Resource>)
    requires Lists(Subjects(a), s) && Lists(Subjects(b), t) && Lists(Subjects(c), u) && Lists(Subjects(d), v)
    requires s !! t !! u !! v
    ensures Lists(Subjects(a + b + c + d), s + t + u + v)
  {
    SubjectsConcat(a, b);
    SubjectsConcat(a + b, c);
    SubjectsConcat(a + b + c, d);
    ListsConcat(Subjects(a), Subjects(b), s, t);
    ListsConcat(Subjects(a + b), Subjects(c), s + t, u);
    ListsConcat(Subjects(a + b + c), Subjects(d), s + t + u, v);
  }

  ghost function Part(db: Db, kind: Kind, active: bool): set<Resource> {
    set r | r in Rows(db) && r.kind == kind && T.IsActive(db, r) == active
  }

  lemma PartsAreListed(db: Db, o: Orders)
    requires ListsRows(db, o)
    ensures Lists(Subjects(OrgEvents(Created, o.orgs, db.orgs)), Part(db, OrgKind, true))
    ensures Lists(Subjects(ProjectEvents(Created, o.projects, db.projects, db.folders, db.orgs)),
        Part(db, ProjectKind, true))
    ensures Lists(Subjects(ProjectEvents(Deleted, o.deadProjects, db.projects, db.folders, db.orgs)),
        Part(db, ProjectKind, false))
    ensures Lists(Subjects(OrgEvents(Deleted, o.deadOrgs, db.orgs)), Part(db, OrgKind, false))
  {
    forall r ensures r in Rows(db) <==> T.HasRow(db, r) { assert r == Resource(r.kind, r.id); }
    forall r { SubjectsOf(db, o, r); }
  }

  /** A replay read in one snapshot names every org and project row exactly once: as created if it is
      active and as deleted if not. */
  lemma SnapshotNamesEveryRowOnce(db: Db, o: Orders)
    requires ListsRows(db, o)
    ensures Lists(Subjects(Snapshot(db, o)), Rows(db))
    ensures forall i :: 0 <= i < |Snapshot(db, o)| ==>
              (Snapshot(db, o)[i].change.Created? <==> T.IsActive(db, Snapshot(db, o)[i].Subject()))
  {
    PartsAreListed(db, o);
    var s, t := Part(db, OrgKind, true), Part(db, ProjectKind, true);
    var u, v := Part(db, ProjectKind, false), Part(db, OrgKind, false);
    FourLists(OrgEvents(Created, o.orgs, db.orgs),
              ProjectEvents(Created, o.projects, db.projects, db.folders, db.orgs),
              ProjectEvents(Deleted, o.deadProjects, db.projects, db.folders, db.orgs),
              OrgEvents(Deleted, o.deadOrgs, db.orgs), s, t, u, v);
    assert s + t + u + v == Rows(db);
    forall i | 0 <= i < |Snapshot(db, o)|
      ensures Snapshot(db, o)[i].change.Created? <==> T.IsActive(db, Snapshot(db, o)[i].Subject())
    {
      SnapshotAt(db, o, i);
    }
  }

  /** The four stretches of a replay. */
  lemma SnapshotAt(db: Db, o: Orders, i: nat)
    requires ListsRows(db, o) && i < |Snapshot(db, o)|
    ensures var e, a := Snapshot(db, o)[i], |o.orgs|;
            var b, c := a + |o.projects|, a + |o.projects| + |o.deadProjects|;
            && (e.kind.ProjectKind? <==> a <= i < c) && (e.change.Created? <==> i < b)
            && (i < a ==> e.resource == o.orgs[i] && e.resource in ActiveOrgs(db))
            && (a <= i < b ==> e.resource in ActiveProjects(db))
            && (b <= i < c ==> e.resource in DeletedProjects(db))
            && (c <= i ==> e.resource in DeletedOrgs(db))
            && (e.kind.ProjectKind? ==> e.orgId == OrgOf(db, db.projects[e.resource]))
  {
  }

  /** Every project event names the org of the project, and parents come first: the org of a created
      project is created before it, and where the org of a deleted project is deleted too, that comes
      after it. */
  lemma SnapshotOrdersParents(w: World, o: Orders, i: nat)
    requires Inv(w) && ListsRows(w.db, o) && i < |Snapshot(w.db, o)| && Snapshot(w.db, o)[i].kind.ProjectKind?
    ensures var es := Snapshot(w.db, o);
            && es[i].resource in w.View().parent
            && es[i].orgId == Some(w.View().parent[es[i].resource])
            && (es[i].change.Created? ==>
                  exists j :: 0 <= j < i && es[j].change.Created?
                            && es[j].Subject() == Resource(OrgKind, es[i].orgId.value))
            && (forall j :: 0 <= j < |es| && es[j].Subject() == Resource(OrgKind, es[i].orgId.value) ==>
                  if es[j].change.Created? then j < i else es[i].change.Deleted? && i < j)
  {
    var db, es := w.db, Snapshot(w.db, o);
    T.Hierarchy(w);
    SnapshotAt(db, o, i);
    var org := db.folders[db.projects[es[i].resource].folder].org;
    if es[i].change.Created? { CreatedAt(db, o, org); }
    forall j | 0 <= j < |es| && es[j].Subject() == Resource(OrgKind, org)
      ensures if es[j].change.Created? then j < i else es[i].change.Deleted? && i < j
    {
      SnapshotAt(db, o, j);
    }
  }

  lemma CreatedAt(db: Db, o: Orders, org: Uuid)
    requires ListsRows(db, o) && org in ActiveOrgs(db)
    ensures exists j :: 0 <= j < |o.orgs| && Snapshot(db, o)[j].change.Created?
                      && Snapshot(db, o)[j].Subject() == Resource(OrgKind, org)
  {
    var j :| 0 <= j < |o.orgs| && o.orgs[j] == org;
    SnapshotAt(db, o, j);
    assert Snapshot(db, o)[j].Subject() == Resource(OrgKind, org);
  }

  // --- The separate reads, undisturbed ---

  /** The nine reads of a session between which nothing happens give the snapshot as the replay. */
  lemma UndisturbedReadsAreASnapshot(w: World, regarded: set<Resource>, o: Orders)
    requires ListsRows(w.db, o)
    ensures var orgsRead := Read(w, Read(w, Session(regarded), []), o.orgs);
            var active := Read(w, Read(w, Read(w, orgsRead, o.projects), []), []);
            var c := Read(w, Read(w, Read(w, Read(w, active, o.deadProjects), []), []), o.deadOrgs);
            c.phase.Polling? && c.replay == Snapshot(w.db, o) && c.backlog == c.replay && c.cursor == MaxEventId(w.db)
  {
    var c0 := Read(w, Read(w, Session(regarded), []), o.orgs);
    assert c0.replay == OrgEvents(Created, o.orgs, w.db.orgs);
    FewerRows(w.db, Created, o.projects);
    FewerRows(w.db, Deleted, o.deadProjects);
    var c1 := Read(w, Read(w, Read(w, c0, o.projects), []), []);
    assert c1 == c0.(phase := DeadProjects,
                     replay := c0.replay + ProjectEvents(Created, o.projects, w.db.projects, w.db.folders, w.db.orgs));
    var c2 := Read(w, Read(w, Read(w, c1, o.deadProjects), []), []);
    assert c2 == c1.(phase := DeadOrgs,
                     replay := c1.replay
                               + ProjectEvents(Deleted, o.deadProjects, w.db.projects, w.db.folders, w.db.orgs));
  }

  /** Reading only the rows and folders that are needed makes no difference to the events. */
  lemma FewerRows(db: Db, change: Change, order: seq<Uuid>)
    requires forall p :: p in order ==> p in db.projects
    ensures var rows := map p | p in order :: db.projects[p];
            var folders := map f | f in FolderIds(rows) && f in db.folders :: db.folders[f];
            ProjectEvents(change, order, rows, folders, db.orgs) ==
                ProjectEvents(change, order, db.projects, db.folders, db.orgs)
  {
    var rows := map p | p in order :: db.projects[p];
    var folders := map f | f in FolderIds(rows) && f in db.folders :: db.folders[f];
    var few := ProjectEvents(change, order, rows, folders, db.orgs);
    var all := ProjectEvents(change, order, db.projects, db.folders, db.orgs);
    forall i | 0 <= i < |order| ensures few[i] == all[i] {
      assert order[i] in rows && rows[order[i]].folder in FolderIds(rows);
    }
  }
}
