/** The state of the tenancy store and the effect of each of its transactions.

    Besides the tables a world carries two history variables: the log of every event ever committed,
    which clean-up never truncates, and the UUIDs ever handed out. Transactions commit atomically
    and event ids increase in commit order. */
module Worlds {
  import opened Tenancy
  import opened EventLog
  import opened Uuids

  datatype World = World(db: Db, nextId: nat, log: seq<Event>, used: set<Uuid>)
  {
    function View(): View { Fold(log) }
  }

  const MAX_NAME := 253
  const DEFAULT_FOLDER := "default"

  datatype StoreError = NotFound | Ambiguous | Constraint | Invalid | Unavailable

  datatype Result<+T> = Ok(value: T) | Err(error: StoreError)

  /** The column validators of the name fields. */
  predicate ValidName(name: string) { 0 < |name| <= MAX_NAME }

  // --- Queries ---

  ghost predicate OrgNameTaken(db: Db, name: string) {
    exists o :: o in db.orgs && db.orgs[o].name == name
  }

  ghost predicate IsOrg(db: Db, name: string, o: Uuid) {
    o in db.orgs && !db.orgs[o].deleted && db.orgs[o].name == name
  }

  /** The org and the folder's id that a project row leads to, where the rows exist. */
  function OrgOf(db: Db, p: Project): Option<Uuid> {
    if p.folder in db.folders && db.folders[p.folder].org in db.orgs then Some(db.folders[p.folder].org) else None
  }

  /** The projects, in whatever state, of an org. */
  function ProjectsOf(db: Db, o: Uuid): set<Uuid> {
    set p | p in db.projects && db.projects[p].folder in db.folders && db.folders[db.projects[p].folder].org == o
  }

  function ActiveProjectsOf(db: Db, o: Uuid): set<Uuid> {
    set p | p in ProjectsOf(db, o) && !db.projects[p].deleted
  }

  /** A project row passes a scope of org names: absent means every org, and a present scope admits
      only the projects of active orgs that it names, so that the empty one admits nothing. */
  predicate InScope(db: Db, p: Project, scope: Option<seq<string>>) {
    match scope
    case None => true
    case Some(names) =>
      match OrgOf(db, p)
      case None => false
      case Some(o) => !db.orgs[o].deleted && db.orgs[o].name in names
  }

  function ActiveOrgs(db: Db): set<Uuid> { set o | o in db.orgs && !db.orgs[o].deleted }

  function ActiveProjects(db: Db): set<Uuid> { set p | p in db.projects && !db.projects[p].deleted }

  function DeletedOrgs(db: Db): set<Uuid> { set o | o in db.orgs && db.orgs[o].deleted }

  function DeletedProjects(db: Db): set<Uuid> { set p | p in db.projects && db.projects[p].deleted }

  function Matching(db: Db, name: string, scope: Option<seq<string>>): set<Uuid> {
    set p | p in db.projects && !db.projects[p].deleted && db.projects[p].name == name
            && InScope(db, db.projects[p], scope)
  }

  // --- Commits ---

  function Emit(w: World, db: Db, e: Event): World {
    World(db.(events := w.db.events + [e]), w.nextId + 1, w.log + [e], w.used)
  }

  function OrgEvent(id: nat, change: Change, o: Uuid, name: string, now: int): Event {
    Event(id, change, OrgKind, o, name, None, None, None, now)
  }

  function ProjectEvent(db: Db, id: nat, change: Change, p: Uuid, row: Project, now: int): Event {
    var o := OrgOf(db, row);
    Event(id, change, ProjectKind, p, row.name, o, if o.Some? then Some(db.orgs[o.value].name) else None,
          if row.folder in db.folders then Some(row.folder) else None, now)
  }

  function AddOrg(w: World, o: Uuid, f: Uuid, name: string, description: string, now: int): World {
    var db := w.db.(orgs := w.db.orgs[o := Org(name, description, false)],
                    folders := w.db.folders[f := Folder(DEFAULT_FOLDER, o)]);
    Emit(w, db, OrgEvent(w.nextId, Created, o, name, now)).(used := w.used + {o, f})
  }

  function AddProject(w: World, p: Uuid, f: Uuid, name: string, description: string, now: int): World {
    var row := Project(name, description, f, false);
    Emit(w, w.db.(projects := w.db.projects[p := row]), ProjectEvent(w.db, w.nextId, Created, p, row, now))
      .(used := w.used + {p})
  }

  /** Soft deletion of one project row together with its event. */
  function DropProject(w: World, p: Uuid, now: int): World
    requires p in w.db.projects
  {
    var row := w.db.projects[p];
    Emit(w, w.db.(projects := w.db.projects[p := row.(deleted := true)]),
         ProjectEvent(w.db, w.nextId, Deleted, p, row, now))
  }

  function DropProjects(w: World, order: seq<Uuid>, now: int): World
    requires forall p :: p in order ==> p in w.db.projects
    decreases |order|
  {
    if order == [] then w
    else DropProjects(DropProject(w, order[0], now), order[1..], now)
  }

  function DropOrgRow(w: World, o: Uuid, now: int): World
    requires o in w.db.orgs
  {
    var row := w.db.orgs[o];
    Emit(w, w.db.(orgs := w.db.orgs[o := row.(deleted := true)]), OrgEvent(w.nextId, Deleted, o, row.name, now))
  }

  /** Deletion of an org with the given listing of its active projects. */
  function DropOrg(w: World, o: Uuid, order: seq<Uuid>, now: int): World
    requires o in w.db.orgs
    requires forall p :: p in order ==> p in w.db.projects
  {
    DropProjectsKeepsOrgs(w, order, now);
    DropOrgRow(DropProjects(w, order, now), o, now)
  }

  lemma {:induction false} DropProjectsKeepsOrgs(w: World, order: seq<Uuid>, now: int)
    requires forall p :: p in order ==> p in w.db.projects
    ensures var db := DropProjects(w, order, now).db;
            && db.orgs == w.db.orgs && db.folders == w.db.folders && db.statuses == w.db.statuses
            && db.projects.Keys == w.db.projects.Keys
    decreases |order|
  {
    if order != [] { DropProjectsKeepsOrgs(DropProject(w, order[0], now), order[1..], now); }
  }

  /** Events older than the cut-off leave the table; the log keeps them. */
  function Recent(events: seq<Event>, cutoff: int): seq<Event> {
    if events == [] then []
    else (if events[0].at < cutoff then [] else [events[0]]) + Recent(events[1..], cutoff)
  }

  function Truncate(w: World, cutoff: int): World {
    w.(db := w.db.(events := Recent(w.db.events, cutoff)))
  }

  // --- The invariant ---

  /** Serial ids ascend in commit order and commit times do not run backwards. */
  ghost predicate Ordered(log: seq<Event>, nextId: nat) {
    && 1 <= nextId
    && (forall i :: 0 <= i < |log| ==> 1 <= log[i].id < nextId)
    && (forall i, j :: 0 <= i < j < |log| ==> log[i].id < log[j].id && log[i].at <= log[j].at)
  }

  ghost predicate IsSuffix(events: seq<Event>, log: seq<Event>) {
    |events| <= |log| && events == log[|log| - |events|..]
  }

  ghost predicate EventsInv(w: World) {
    WellFormed(w.log) && Ordered(w.log, w.nextId) && IsSuffix(w.db.events, w.log)
  }

  /** The number of events clean-up has removed: they are the oldest ones. */
  function Base(w: World): int { |w.log| - |w.db.events| }

  /** The tables agree with the view that the log folds to: every row is of something born, and the
      active rows are exactly the live resources. */
  ghost predicate OrgRows(orgs: map<Uuid, Org>, v: View) {
    && (forall o :: o in orgs ==> Resource(OrgKind, o) in v.born)
    && (forall o :: Resource(OrgKind, o) in v.live <==> o in orgs && !orgs[o].deleted)
  }

  ghost predicate ProjectRows(projects: map<Uuid, Project>, v: View) {
    && (forall p :: p in projects ==> Resource(ProjectKind, p) in v.born)
    && (forall p :: Resource(ProjectKind, p) in v.live <==> p in projects && !projects[p].deleted)
  }

  /** Every project leads through its folder to the org it was created under. */
  ghost predicate Lineage(projects: map<Uuid, Project>, folders: map<Uuid, Folder>, parent: map<Uuid, Uuid>) {
    forall p :: p in projects ==>
      && p in parent
      && projects[p].folder in folders
      && folders[projects[p].folder].org == parent[p]
  }

  ghost predicate RowsInv(db: Db, v: View) {
    OrgRows(db.orgs, v) && ProjectRows(db.projects, v) && Lineage(db.projects, db.folders, v.parent)
  }

  /** Every folder is the default folder of an existing org. */
  ghost predicate FoldersOwned(folders: map<Uuid, Folder>, orgs: map<Uuid, Org>) {
    forall f :: f in folders ==> folders[f].org in orgs && folders[f].name == DEFAULT_FOLDER
  }

  ghost predicate OneFolderEach(folders: map<Uuid, Folder>) {
    forall f, g :: f in folders && g in folders && folders[f].org == folders[g].org ==> f == g
  }

  ghost predicate HasFolder(folders: map<Uuid, Folder>, o: Uuid) {
    exists f :: f in folders && folders[f].org == o
  }

  ghost predicate Housed(orgs: map<Uuid, Org>, folders: map<Uuid, Folder>) {
    forall o :: o in orgs && !orgs[o].deleted ==> HasFolder(folders, o)
  }

  ghost predicate OrgNamesUnique(orgs: map<Uuid, Org>) {
    forall o, q :: o in orgs && q in orgs && orgs[o].name == orgs[q].name ==> o == q
  }

  predicate SameSlot(p: Project, q: Project) { p.folder == q.folder && p.name == q.name }

  ghost predicate SlotsUnique(projects: map<Uuid, Project>) {
    forall p, q :: p in projects && q in projects && SameSlot(projects[p], projects[q]) ==> p == q
  }

  /** Every folder belongs to an existing org, every active org has exactly one folder and it is the
      default one, and the unique indexes hold. */
  ghost predicate SchemaInv(db: Db) {
    && FoldersOwned(db.folders, db.orgs)
    && OneFolderEach(db.folders)
    && Housed(db.orgs, db.folders)
    && OrgNamesUnique(db.orgs)
    && SlotsUnique(db.projects)
  }

  ghost predicate IdsInv(w: World) {
    && w.db.orgs.Keys <= w.used && w.db.folders.Keys <= w.used && w.db.projects.Keys <= w.used
    && (forall r :: r in w.View().born ==> r.id in w.used)
    && (forall u :: u in w.used ==> IsUuid(u))
  }

  ghost predicate Inv(w: World) {
    EventsInv(w) && RowsInv(w.db, w.View()) && SchemaInv(w.db) && IdsInv(w)
  }

  const EMPTY_DB := Db(map[], map[], map[], map[], [])
  const EMPTY_WORLD := World(EMPTY_DB, 1, [], {})

  lemma EmptyInv()
    ensures Inv(EMPTY_WORLD)
  {
  }

  // --- Every commit keeps the invariant ---

  /** Clocks do not run backwards between commits. */
  ghost predicate Timely(w: World, now: int) {
    w.log != [] ==> w.log[|w.log| - 1].at <= now
  }

  ghost predicate Fresh(w: World, u: Uuid) { IsUuid(u) && u !in w.used }

  lemma SuffixAppend(events: seq<Event>, log: seq<Event>, e: Event)
    requires IsSuffix(events, log)
    ensures IsSuffix(events + [e], log + [e])
  {
    assert (log + [e])[|log| - |events|..] == log[|log| - |events|..] + [e];
  }

  lemma OrderedAppend(log: seq<Event>, nextId: nat, e: Event)
    requires Ordered(log, nextId) && e.id == nextId && (log != [] ==> log[|log| - 1].at <= e.at)
    ensures Ordered(log + [e], nextId + 1)
  {
  }

  lemma EmitKeepsEvents(w: World, db: Db, e: Event)
    requires EventsInv(w) && Timely(w, e.at) && e.id == w.nextId && Admissible(w.View(), e)
    ensures EventsInv(Emit(w, db, e))
    ensures Emit(w, db, e).View() == Apply(w.View(), e)
  {
    WellFormedAppend(w.log, e);
    FoldAppend(w.log, e);
    SuffixAppend(w.db.events, w.log, e);
    OrderedAppend(w.log, w.nextId, e);
  }

  lemma EmitKeepsIds(w: World, w': World, e: Event)
    requires IdsInv(w) && w'.View() == Apply(w.View(), e) && w.used <= w'.used && e.resource in w'.used
    requires forall u :: u in w'.used && u !in w.used ==> IsUuid(u)
    requires w'.db.orgs.Keys <= w'.used && w'.db.folders.Keys <= w'.used && w'.db.projects.Keys <= w'.used
    ensures IdsInv(w')
  {
  }

  lemma SchemaWithOrg(db: Db, o: Uuid, f: Uuid, row: Org)
    requires SchemaInv(db) && o !in db.orgs && f !in db.folders && !OrgNameTaken(db, row.name)
    ensures SchemaInv(db.(orgs := db.orgs[o := row], folders := db.folders[f := Folder(DEFAULT_FOLDER, o)]))
  {
    var orgs, folders := db.orgs[o := row], db.folders[f := Folder(DEFAULT_FOLDER, o)];
    assert Housed(orgs, folders) by {
      forall q | q in orgs && !orgs[q].deleted ensures HasFolder(folders, q) {
        if q == o {
          assert f in folders && folders[f].org == o;
        } else {
          var g :| g in db.folders && db.folders[g].org == q;
          assert g in folders && folders[g].org == q;
        }
      }
    }
    assert OneFolderEach(folders);
    assert OrgNamesUnique(orgs);
  }

  lemma RowsWithOrg(db: Db, v: View, o: Uuid, f: Uuid, row: Org, e: Event)
    requires RowsInv(db, v) && !row.deleted && f !in db.folders
    requires e.change.Created? && e.Subject() == Resource(OrgKind, o)
    ensures RowsInv(db.(orgs := db.orgs[o := row], folders := db.folders[f := Folder(DEFAULT_FOLDER, o)]), Apply(v, e))
  {
  }

  lemma NewIdIsAdmissible(w: World, e: Event)
    requires IdsInv(w) && e.change.Created? && e.resource !in w.used
    requires if e.kind.ProjectKind? then e.orgId.Some? && Resource(OrgKind, e.orgId.value) in w.View().live
        else e.orgId.None?
    ensures Admissible(w.View(), e)
  {
  }

  lemma AddOrgCommits(w: World, o: Uuid, f: Uuid, name: string, description: string, now: int)
    requires EventsInv(w) && IdsInv(w) && Timely(w, now) && Fresh(w, o) && Fresh(w, f)
    ensures EventsInv(AddOrg(w, o, f, name, description, now)) && IdsInv(AddOrg(w, o, f, name, description, now))
    ensures AddOrg(w, o, f, name, description, now).View() == Apply(w.View(), OrgEvent(w.nextId, Created, o, name, now))
  {
    var db := w.db.(orgs := w.db.orgs[o := Org(name, description, false)],
                    folders := w.db.folders[f := Folder(DEFAULT_FOLDER, o)]);
    var e := OrgEvent(w.nextId, Created, o, name, now);
    NewIdIsAdmissible(w, e);
    EmitKeepsEvents(w, db, e);
    EmitKeepsIds(w, AddOrg(w, o, f, name, description, now), e);
  }

  lemma AddOrgKeepsInv(w: World, o: Uuid, f: Uuid, name: string, description: string, now: int)
    requires Inv(w) && Timely(w, now) && Fresh(w, o) && Fresh(w, f) && o != f && !OrgNameTaken(w.db, name)
    ensures Inv(AddOrg(w, o, f, name, description, now))
  {
    var row := Org(name, description, false);
    AddOrgCommits(w, o, f, name, description, now);
    SchemaWithOrg(w.db, o, f, row);
    RowsWithOrg(w.db, w.View(), o, f, row, OrgEvent(w.nextId, Created, o, name, now));
  }

  lemma RowsWithProject(db: Db, v: View, p: Uuid, row: Project, e: Event)
    requires RowsInv(db, v) && !row.deleted && row.folder in db.folders
    requires e.change.Created? && e.Subject() == Resource(ProjectKind, p) && e.orgId == Some(db.folders[row.folder].org)
    ensures RowsInv(db.(projects := db.projects[p := row]), Apply(v, e))
  {
  }

  lemma SlotsWithProject(projects: map<Uuid, Project>, p: Uuid, row: Project)
    requires SlotsUnique(projects)
    requires forall q :: q in projects && q != p ==> !SameSlot(projects[q], row)
    ensures SlotsUnique(projects[p := row])
  {
  }

  lemma AddProjectCommits(w: World, p: Uuid, f: Uuid, name: string, description: string, now: int)
    requires EventsInv(w) && IdsInv(w) && Timely(w, now) && Fresh(w, p)
    requires f in w.db.folders && w.db.folders[f].org in w.db.orgs
        && Resource(OrgKind, w.db.folders[f].org) in w.View().live
    ensures EventsInv(AddProject(w, p, f, name, description, now))
        && IdsInv(AddProject(w, p, f, name, description, now))
    ensures AddProject(w, p, f, name, description, now).View()
         == Apply(w.View(), ProjectEvent(w.db, w.nextId, Created, p, Project(name, description, f, false), now))
  {
    var row := Project(name, description, f, false);
    var e := ProjectEvent(w.db, w.nextId, Created, p, row, now);
    NewIdIsAdmissible(w, e);
    EmitKeepsEvents(w, w.db.(projects := w.db.projects[p := row]), e);
    EmitKeepsIds(w, AddProject(w, p, f, name, description, now), e);
  }

  lemma AddProjectKeepsInv(w: World, p: Uuid, f: Uuid, name: string, description: string, now: int)
    requires Inv(w) && Timely(w, now) && Fresh(w, p)
    requires f in w.db.folders && !w.db.orgs[w.db.folders[f].org].deleted
    requires forall q :: q in w.db.projects && w.db.projects[q].folder == f ==> w.db.projects[q].name != name
    ensures Inv(AddProject(w, p, f, name, description, now))
  {
    var row := Project(name, description, f, false);
    AddProjectCommits(w, p, f, name, description, now);
    SlotsWithProject(w.db.projects, p, row);
    RowsWithProject(w.db, w.View(), p, row, ProjectEvent(w.db, w.nextId, Created, p, row, now));
  }

  lemma RowsWithoutProject(db: Db, v: View, p: Uuid, e: Event)
    requires RowsInv(db, v) && p in db.projects
    requires e.change.Deleted? && e.Subject() == Resource(ProjectKind, p)
    ensures RowsInv(db.(projects := db.projects[p := db.projects[p].(deleted := true)]), Apply(v, e))
  {
  }

  lemma DropProjectKeepsInv(w: World, p: Uuid, now: int)
    requires Inv(w) && Timely(w, now) && p in w.db.projects && !w.db.projects[p].deleted
    ensures Inv(DropProject(w, p, now))
  {
    var row := w.db.projects[p];
    var e := ProjectEvent(w.db, w.nextId, Deleted, p, row, now);
    SlotsWithProject(w.db.projects, p, row.(deleted := true));
    RowsWithoutProject(w.db, w.View(), p, e);
    EmitKeepsEvents(w, w.db.(projects := w.db.projects[p := row.(deleted := true)]), e);
  }

  lemma RowsWithoutOrg(db: Db, v: View, o: Uuid, e: Event)
    requires RowsInv(db, v) && o in db.orgs
    requires e.change.Deleted? && e.Subject() == Resource(OrgKind, o)
    ensures RowsInv(db.(orgs := db.orgs[o := db.orgs[o].(deleted := true)]), Apply(v, e))
  {
  }

  lemma SchemaWithoutOrg(db: Db, o: Uuid)
    requires SchemaInv(db) && o in db.orgs
    ensures SchemaInv(db.(orgs := db.orgs[o := db.orgs[o].(deleted := true)]))
  {
    assert OrgNamesUnique(db.orgs[o := db.orgs[o].(deleted := true)]);
  }

  lemma DropOrgRowKeepsInv(w: World, o: Uuid, now: int)
    requires Inv(w) && Timely(w, now) && o in w.db.orgs && !w.db.orgs[o].deleted && ActiveProjectsOf(w.db, o) == {}
    ensures Inv(DropOrgRow(w, o, now))
  {
    var row, v := w.db.orgs[o], w.View();
    var e := OrgEvent(w.nextId, Deleted, o, row.name, now);
    assert Admissible(v, e) by {
      forall r | r in v.live && r.kind.ProjectKind? && r.id in v.parent ensures v.parent[r.id] != o {
        assert r == Resource(ProjectKind, r.id);
        assert r.id !in ActiveProjectsOf(w.db, o);
      }
    }
    RowsWithoutOrg(w.db, v, o, e);
    EmitKeepsEvents(w, w.db.(orgs := w.db.orgs[o := row.(deleted := true)]), e);
    SchemaWithoutOrg(w.db, o);
    EmitKeepsIds(w, DropOrgRow(w, o, now), e);
  }

  // --- Deletion of an org with its projects ---

  /** The rows of a deletion cascade: exactly the listed projects change, and only to deleted. */
  ghost predicate OnlyDeletes(before: map<Uuid, Project>, after: map<Uuid, Project>, order: seq<Uuid>) {
    && after.Keys == before.Keys
    && forall p :: p in before ==> after[p] == if p in order then before[p].(deleted := true) else before[p]
  }

  ghost predicate AllActive(w: World, order: seq<Uuid>) {
    && (forall p :: p in order ==> p in w.db.projects && !w.db.projects[p].deleted)
    && (forall i, j :: 0 <= i < j < |order| ==> order[i] != order[j])
  }

  lemma DropOneOf(w: World, order: seq<Uuid>, now: int)
    requires order != [] && AllActive(w, order)
    ensures AllActive(DropProject(w, order[0], now), order[1..])
    ensures forall q :: q in order <==> q == order[0] || q in order[1..]
  {
    assert forall q :: q in order[1..] ==> q in order && q != order[0];
  }

  lemma {:induction false} DropProjectsOnlyDeletes(w: World, order: seq<Uuid>, now: int)
    requires AllActive(w, order)
    ensures OnlyDeletes(w.db.projects, DropProjects(w, order, now).db.projects, order)
    decreases |order|
  {
    if order != [] {
      DropOneOf(w, order, now);
      DropProjectsOnlyDeletes(DropProject(w, order[0], now), order[1..], now);
    }
  }

  lemma {:induction false} DropProjectsKeepsInv(w: World, order: seq<Uuid>, now: int)
    requires Inv(w) && Timely(w, now) && AllActive(w, order)
    ensures Inv(DropProjects(w, order, now)) && Timely(DropProjects(w, order, now), now)
    decreases |order|
  {
    if order != [] {
      DropOneOf(w, order, now);
      DropProjectKeepsInv(w, order[0], now);
      DropProjectsKeepsInv(DropProject(w, order[0], now), order[1..], now);
    }
  }

  lemma DropOrgKeepsInv(w: World, o: Uuid, order: seq<Uuid>, now: int)
    requires Inv(w) && Timely(w, now) && o in w.db.orgs && !w.db.orgs[o].deleted
        && Lists(order, ActiveProjectsOf(w.db, o))
    ensures Inv(DropOrg(w, o, order, now))
    ensures OnlyDeletes(w.db.projects, DropOrg(w, o, order, now).db.projects, order)
  {
    assert AllActive(w, order);
    DropProjectsKeepsInv(w, order, now);
    DropProjectsOnlyDeletes(w, order, now);
    DropProjectsKeepsOrgs(w, order, now);
    var w1 := DropProjects(w, order, now);
    assert ActiveProjectsOf(w1.db, o) == {} by {
      forall p ensures p !in ActiveProjectsOf(w1.db, o) {
        if p in order { assert w1.db.projects[p].deleted; } else { assert p !in ActiveProjectsOf(w.db, o); }
      }
    }
    DropOrgRowKeepsInv(w1, o, now);
  }

  lemma {:induction false} DropProjectsGrowsLog(w: World, order: seq<Uuid>, now: int)
    requires forall p :: p in order ==> p in w.db.projects
    ensures var w' := DropProjects(w, order, now);
            && w'.nextId == w.nextId + |order| && w'.used == w.used
            && |w'.log| == |w.log| + |order| && w.log == w'.log[..|w.log|]
            && w'.db.events == w.db.events + w'.log[|w.log|..]
    decreases |order|
  {
    if order != [] {
      var w1 := DropProject(w, order[0], now);
      DropProjectsGrowsLog(w1, order[1..], now);
      var log := DropProjects(w1, order[1..], now).log;
      assert log[..|w.log|] == log[..|w1.log|][..|w.log|];
      assert log[|w.log|] == log[..|w1.log|][|w.log|];
      assert log[|w.log|..] == [log[|w.log|]] + log[|w1.log|..];
    }
  }

  /** The events of a cascade: one deletion for each listed project, in that order, with consecutive
      ids and the org of its folder. */
  lemma {:induction false} DropProjectsLogs(w: World, order: seq<Uuid>, now: int, i: nat)
    requires forall p :: p in order ==> p in w.db.projects
    requires i < |order|
    ensures |DropProjects(w, order, now).log| == |w.log| + |order|
    ensures DropProjects(w, order, now).log[|w.log| + i]
         == ProjectEvent(w.db, w.nextId + i, Deleted, order[i], w.db.projects[order[i]], now)
    decreases |order|
  {
    DropProjectsGrowsLog(w, order, now);
    var w1 := DropProject(w, order[0], now);
    DropProjectsGrowsLog(w1, order[1..], now);
    if i > 0 {
      DropProjectsLogs(w1, order[1..], now, i - 1);
    } else {
      assert DropProjects(w1, order[1..], now).log[..|w1.log|][|w.log|] == w1.log[|w.log|];
    }
  }

  // --- Updates and clean-up ---

  lemma {:induction false} AllRecent(events: seq<Event>, cutoff: int)
    requires forall i :: 0 <= i < |events| ==> events[i].at >= cutoff
    ensures Recent(events, cutoff) == events
    decreases |events|
  {
    if events != [] { AllRecent(events[1..], cutoff); }
  }

  ghost predicate ByTime(events: seq<Event>) {
    forall i, j :: 0 <= i < j < |events| ==> events[i].at <= events[j].at
  }

  /** With commit times in order, clean-up removes exactly a first stretch of the table. */
  lemma {:induction false} RecentIsSuffix(events: seq<Event>, cutoff: int)
    requires ByTime(events)
    ensures |Recent(events, cutoff)| <= |events|
    ensures var k := |events| - |Recent(events, cutoff)|;
            && Recent(events, cutoff) == events[k..]
            && (forall i :: 0 <= i < |events| ==> (i < k <==> events[i].at < cutoff))
    decreases |events|
  {
    if events != [] {
      if events[0].at < cutoff {
        var rest := events[1..];
        RecentIsSuffix(rest, cutoff);
        var k := |rest| - |Recent(rest, cutoff)|;
        assert rest[k..] == events[k + 1..];
        forall i | 0 <= i < |events| ensures i < k + 1 <==> events[i].at < cutoff {
          if i > 0 { assert rest[i - 1] == events[i]; }
        }
      } else {
        AllRecent(events, cutoff);
      }
    }
  }

  lemma RecentOfSuffix(events: seq<Event>, log: seq<Event>, cutoff: int)
    requires IsSuffix(events, log) && ByTime(log)
    ensures IsSuffix(Recent(events, cutoff), log) && |Recent(events, cutoff)| <= |events|
  {
    var k := |log| - |events|;
    assert forall i :: 0 <= i < |events| ==> events[i] == log[k + i];
    RecentIsSuffix(events, cutoff);
    var r := Recent(events, cutoff);
    assert log[|log| - |r|..] == log[k..][|events| - |r|..];
  }

  lemma TruncateKeepsInv(w: World, cutoff: int)
    requires Inv(w)
    ensures Inv(Truncate(w, cutoff))
    ensures Base(w) <= Base(Truncate(w, cutoff))
  {
    RecentOfSuffix(w.db.events, w.log, cutoff);
  }

  function Redescribe(w: World, o: Uuid, description: string): World
    requires o in w.db.orgs
  {
    w.(db := w.db.(orgs := w.db.orgs[o := w.db.orgs[o].(description := description)]))
  }

  function RedescribeProject(w: World, p: Uuid, description: string): World
    requires p in w.db.projects
  {
    w.(db := w.db.(projects := w.db.projects[p := w.db.projects[p].(description := description)]))
  }

  /** Hard deletion of a project row, of the folders of an org, and of an org row. */
  function EraseProject(w: World, p: Uuid): World {
    w.(db := w.db.(projects := w.db.projects - {p}))
  }

  function FoldersOf(db: Db, o: Uuid): set<Uuid> {
    set f | f in db.folders && db.folders[f].org == o
  }

  function EraseFolders(w: World, o: Uuid): World {
    w.(db := w.db.(folders := w.db.folders - FoldersOf(w.db, o)))
  }

  function EraseOrg(w: World, o: Uuid): World {
    w.(db := w.db.(orgs := w.db.orgs - {o}))
  }

  lemma RedescribeKeepsInv(w: World, o: Uuid, description: string)
    requires Inv(w) && o in w.db.orgs
    ensures Inv(Redescribe(w, o, description))
  {
    var orgs := Redescribe(w, o, description).db.orgs;
    assert OrgNamesUnique(orgs) && OrgRows(orgs, w.View()) && Housed(orgs, w.db.folders);
  }

  lemma RowsRedescribed(db: Db, v: View, p: Uuid, description: string)
    requires RowsInv(db, v) && p in db.projects
    ensures RowsInv(db.(projects := db.projects[p := db.projects[p].(description := description)]), v)
  {
  }

  lemma RedescribeProjectKeepsInv(w: World, p: Uuid, description: string)
    requires Inv(w) && p in w.db.projects
    ensures Inv(RedescribeProject(w, p, description))
  {
    SlotsWithProject(w.db.projects, p, w.db.projects[p].(description := description));
    RowsRedescribed(w.db, w.View(), p, description);
  }

  lemma EraseProjectKeepsInv(w: World, p: Uuid)
    requires Inv(w) && Resource(ProjectKind, p) !in w.View().live
    ensures Inv(EraseProject(w, p))
  {
  }

  lemma EraseFoldersKeepsInv(w: World, o: Uuid)
    requires Inv(w) && Resource(OrgKind, o) !in w.View().live && ProjectsOf(w.db, o) == {}
    ensures Inv(EraseFolders(w, o)) && FoldersOf(EraseFolders(w, o).db, o) == {}
  {
    var folders := EraseFolders(w, o).db.folders;
    assert Housed(w.db.orgs, folders) by {
      forall q | q in w.db.orgs && !w.db.orgs[q].deleted ensures HasFolder(folders, q) {
        var f :| f in w.db.folders && w.db.folders[f].org == q;
        assert q != o && f in folders && folders[f].org == q;
      }
    }
    forall p | p in w.db.projects ensures w.db.projects[p].folder in folders {
      assert p !in ProjectsOf(w.db, o);
    }
  }

  lemma EraseOrgKeepsInv(w: World, o: Uuid)
    requires Inv(w) && Resource(OrgKind, o) !in w.View().live && FoldersOf(w.db, o) == {}
    ensures Inv(EraseOrg(w, o))
  {
    assert FoldersOwned(w.db.folders, w.db.orgs - {o}) by {
      forall f | f in w.db.folders ensures w.db.folders[f].org != o { assert f !in FoldersOf(w.db, o); }
    }
  }
}
