/** The store's operations as they run: each works on its own copy of the tables statement by
    statement, any statement may fail, and only a commit publishes the copy. */
module Stores {
  import opened Tenancy
  import opened EventLog
  import opened Worlds
  import T = Transactions
  import C = Cleanup

  /** After a rollback the tables, the log and the UUIDs are untouched; serial ids already drawn stay
      drawn. */
  ghost predicate RolledBack(before: World, after: World) {
    after == before.(nextId := after.nextId) && before.nextId <= after.nextId
  }

  /** A call that reports success has the specified effect in full; a call that reports an error has
      none, and the error is the specified one unless the database was unavailable, which a reliable one
      never is. */
  ghost predicate Outcome<R>(before: World, after: World, spec: Result<World>, r: Result<R>, reliable: bool) {
    match r
    case Ok(_) => spec == Ok(after)
    case Err(e) => RolledBack(before, after) && ((e.Unavailable? && !reliable) || spec == Err(e))
  }

  /** Whether the next statement fails. */
  method Fails(reliable: bool) returns (down: bool)
    ensures reliable ==> !down
  {
    down := *;
    down := down && !reliable;
  }

  /** The rows of a query result in some order. */
  method Listing(s: set<Uuid>) returns (order: seq<Uuid>)
    ensures Lists(order, s)
  {
    order := [];
    var rest := s;
    while rest != {}
      invariant rest <= s
      invariant Lists(order, s - rest)
      decreases |rest|
    {
      var x :| x in rest;
      order := order + [x];
      rest := rest - {x};
    }
    assert s - rest == s;
  }

  lemma OutcomeKeepsInv<R>(before: World, after: World, spec: Result<World>, r: Result<R>, reliable: bool)
    requires Inv(before) && Outcome(before, after, spec, r, reliable) && (spec.Ok? ==> Inv(spec.value))
    ensures Inv(after)
  {
  }

  lemma {:induction false} DropProjectsSnoc(w: World, order: seq<Uuid>, now: int, i: nat)
    requires forall p :: p in order ==> p in w.db.projects
    requires i < |order|
    ensures (forall p :: p in order[..i] ==> p in w.db.projects)
        && order[i] in DropProjects(w, order[..i], now).db.projects
    ensures DropProjects(w, order[..i + 1], now) == DropProject(DropProjects(w, order[..i], now), order[i], now)
    decreases i
  {
    if i > 0 {
      var w1 := DropProject(w, order[0], now);
      DropProjectsSnoc(w1, order[1..], now, i - 1);
      assert order[..i][1..] == order[1..][..i - 1];
      assert order[..i + 1][1..] == order[1..][..i];
    } else {
      assert order[..1] == [order[0]];
      assert DropProjects(DropProject(w, order[0], now), [], now) == DropProject(w, order[0], now);
    }
  }

  /** The single row of a query result. */
  method Only(found: set<Uuid>) returns (r: Result<Uuid>)
    ensures r.Ok? ==> found == {r.value}
    ensures r.Err? ==> (forall p :: found != {p}) && r.error == if found == {} then NotFound else Ambiguous
  {
    if |found| == 0 {
      return Err(NotFound);
    }
    if |found| > 1 {
      assert forall p :: found == {p} ==> |found| == 1;
      return Err(Ambiguous);
    }
    var p :| p in found;
    assert |found - {p}| == 0;
    assert found == {p};
    return Ok(p);
  }

  /** Part-way through a cascade the next project is still as it was, and so are the orgs and folders. */
  lemma RowsInCascade(w: World, order: seq<Uuid>, now: int, i: nat)
    requires AllActive(w, order) && i < |order|
    ensures forall p :: p in order[..i] ==> p in w.db.projects
    ensures var tx := DropProjects(w, order[..i], now).db;
            && tx.orgs == w.db.orgs && tx.folders == w.db.folders
            && order[i] in tx.projects && tx.projects[order[i]] == w.db.projects[order[i]]
  {
    assert AllActive(w, order[..i]);
    DropProjectsOnlyDeletes(w, order[..i], now);
    DropProjectsKeepsOrgs(w, order[..i], now);
  }

  /** Nothing is added or changed but status rows, and no active row goes. */
  ghost predicate Pruned(before: Db, after: Db) {
    && after.orgs.Keys <= before.orgs.Keys && after.projects.Keys <= before.projects.Keys
    && after.folders.Keys <= before.folders.Keys && after.events == before.events
    && (forall o :: o in after.orgs ==> after.orgs[o] == before.orgs[o])
    && (forall p :: p in after.projects ==> after.projects[p] == before.projects[p])
    && (forall o :: o in before.orgs && o !in after.orgs ==> before.orgs[o].deleted)
    && (forall p :: p in before.projects && p !in after.projects ==> before.projects[p].deleted)
  }

  lemma PrunedTwice(a: Db, b: Db, c: Db)
    requires Pruned(a, b) && Pruned(b, c)
    ensures Pruned(a, c)
  {
  }

  /** What was soft-deleted before a pruning is not live after it. */
  lemma PrunedStaysDead(start: Db, w: World, r: Resource)
    requires Pruned(start, w.db) && OrgRows(w.db.orgs, w.View()) && ProjectRows(w.db.projects, w.View())
    requires match r.kind
             case OrgKind => r.id in start.orgs && start.orgs[r.id].deleted
             case ProjectKind => r.id in start.projects && start.projects[r.id].deleted
    ensures r !in w.View().live
  {
    assert r == Resource(r.kind, r.id);
  }

  lemma StatusesKeepInv(w: World, statuses: map<StatusKey, StatusRow>)
    requires Inv(w)
    ensures Inv(w.(db := w.db.(statuses := statuses)))
  {
  }

  // --- What the operations do to the rows ---

  /** Every org row but that one is as it was. */
  ghost predicate OrgsBut(before: Db, after: Db, o: Uuid) {
    o in before.orgs && after.orgs.Keys == before.orgs.Keys
    && forall q :: q in before.orgs && q != o ==> after.orgs[q] == before.orgs[q]
  }

  /** Every project row but that one, every org and every folder are as they were. */
  ghost predicate ProjectsBut(before: Db, after: Db, p: Uuid) {
    && p in before.projects && after.projects.Keys == before.projects.Keys
    && after.orgs == before.orgs && after.folders == before.folders
    && forall q :: q in before.projects && q != p ==> after.projects[q] == before.projects[q]
  }

  /** One new row, active, under the default folder of the active org of the given name, in which the
      project's name was free. */
  ghost predicate ProjectCreated(before: Db, after: Db, orgName: string, name: string, description: string, p: Uuid) {
    && 1 <= |name| <= 253 && after.orgs == before.orgs && after.folders == before.folders
    && exists o, f :: IsOrg(before, orgName, o) && f in before.folders && before.folders[f] == Folder("default", o)
         && (forall q :: q in before.projects && before.projects[q].folder == f ==> before.projects[q].name != name)
         && after.projects == before.projects[p := Project(name, description, f, false)]
  }

  /** Why a project is not created. */
  ghost predicate CreationRefused(db: Db, orgName: string, name: string, error: StoreError) {
    match error
    case NotFound => forall o :: !IsOrg(db, orgName, o)
    case Invalid => |name| < 1 || |name| > 253
    case Constraint =>
      exists o, q :: IsOrg(db, orgName, o) && q in db.projects && OrgOf(db, db.projects[q]) == Some(o)
                     && db.projects[q].name == name
    case _ => error.Unavailable?
  }

  /** The active org of the name is deleted with its active projects, and their rows are otherwise as they
      were. */
  ghost predicate OrgDeleted(before: Db, after: Db, name: string, o: Uuid) {
    && IsOrg(before, name, o) && OrgsBut(before, after, o) && after.orgs[o] == before.orgs[o].(deleted := true)
    && after.folders == before.folders && after.projects.Keys == before.projects.Keys
    && forall p :: p in before.projects ==>
         after.projects[p] == if p in ActiveProjectsOf(before, o) then before.projects[p].(deleted := true)
                              else before.projects[p]
  }

  ghost predicate ProjectDeleted(before: Db, after: Db, p: Uuid) {
    ProjectsBut(before, after, p) && !before.projects[p].deleted
    && after.projects[p] == before.projects[p].(deleted := true)
  }

  ghost predicate ProjectRedescribed(before: Db, after: Db, p: Uuid, description: string) {
    && ProjectsBut(before, after, p) && after.statuses == before.statuses && after.events == before.events
    && !before.projects[p].deleted && after.projects[p].description == description
    && after.projects[p].name == before.projects[p].name && after.projects[p].folder == before.projects[p].folder
    && !after.projects[p].deleted
  }

  lemma CreationMeans(w: World, orgName: string, name: string, description: string, p: Uuid, now: int)
    ensures var spec := T.CreateProject(w, orgName, name, description, p, now);
            spec.Ok? ==> ProjectCreated(w.db, spec.value.db, orgName, name, description, p)
  {
    var spec := T.CreateProject(w, orgName, name, description, p, now);
    if spec.Ok? {
      var o := T.FindOrg(w.db, orgName).value;
      var f :| T.IsDefaultFolder(w.db, o, f) && !T.SlotTaken(w.db, f, name)
        && spec.value == AddProject(w, p, f, name, description, now);
      assert w.db.folders[f] == Folder("default", o);
    }
  }

  lemma RefusalMeans(w: World, orgName: string, name: string, description: string, p: Uuid, now: int)
    requires SchemaInv(w.db)
    ensures var spec := T.CreateProject(w, orgName, name, description, p, now);
            spec.Err? ==> CreationRefused(w.db, orgName, name, spec.error)
  {
    var spec := T.CreateProject(w, orgName, name, description, p, now);
    if T.FindOrg(w.db, orgName).Some? {
      var o := T.FindOrg(w.db, orgName).value;
      assert HasFolder(w.db.folders, o);
      var g :| g in w.db.folders && w.db.folders[g].org == o;
      assert T.IsDefaultFolder(w.db, o, g) && forall h :: T.IsDefaultFolder(w.db, o, h) ==> h == g;
      if spec == Err(Constraint) {
        assert T.SlotTaken(w.db, g, name);
        var q :| q in w.db.projects && w.db.projects[q].folder == g && w.db.projects[q].name == name;
        assert OrgOf(w.db, w.db.projects[q]) == Some(o);
      }
    }
  }

  lemma OrgDeletionMeans(w: World, name: string, o: Uuid, order: seq<Uuid>, now: int)
    requires IsOrg(w.db, name, o) && Lists(order, ActiveProjectsOf(w.db, o))
    ensures OrgDeleted(w.db, DropOrg(w, o, order, now).db, name, o)
  {
    DropProjectsOnlyDeletes(w, order, now);
    DropProjectsKeepsOrgs(w, order, now);
  }

  lemma UpdateMeans(w: World, name: string, scope: Option<seq<string>>, description: string)
    ensures var spec := T.UpdateProject(w, name, scope, description);
            spec.Ok? ==> && spec.value == w.(db := spec.value.db)
                         && forall p :: Matching(w.db, name, scope) == {p} ==>
                              ProjectRedescribed(w.db, spec.value.db, p, description)
  {
    if T.UpdateProject(w, name, scope, description).Ok? {
      assert T.FindProject(w.db, name, scope).value in Matching(w.db, name, scope);
    }
  }

  lemma ProjectDeletionMeans(w: World, p: Uuid, now: int)
    requires p in w.db.projects && !w.db.projects[p].deleted
    ensures ProjectDeleted(w.db, DropProject(w, p, now).db, p)
  {
  }

  class Store {
    const reliable: bool
    var db: Db
    var nextId: nat
    ghost var log: seq<Event>
    ghost var used: set<Uuid>

    ghost function World(): World
      reads this
    {
      Worlds.World(db, nextId, log, used)
    }

    ghost predicate Valid()
      reads this
    {
      Inv(World())
    }

    constructor (reliable: bool)
      ensures World() == EMPTY_WORLD && Valid() && this.reliable == reliable
    {
      this.reliable := reliable;
      db, nextId, log, used := EMPTY_DB, 1, [], {};
      new;
      EmptyInv();
    }

    method CreateOrg(name: string, description: string, o: Uuid, f: Uuid, now: int) returns (r: Result<Uuid>)
      requires Valid() && Timely(World(), now) && Fresh(World(), o) && Fresh(World(), f) && o != f
      modifies this
      ensures Valid()
      ensures Outcome(old(World()), World(), T.CreateOrg(old(World()), name, description, o, f, now), r, reliable)
      ensures r.Ok? ==> r.value == o
      ensures var free := forall q :: q in old(db).orgs ==> old(db).orgs[q].name != name;
              && (r.Ok? ==> 1 <= |name| <= 253 && free)
              && (r == Err(Invalid) ==> |name| < 1 || |name| > 253) && (r == Err(Constraint) ==> !free)
              && (reliable && 1 <= |name| <= 253 && free ==> r.Ok?)
      ensures r.Ok? ==> db.orgs == old(db).orgs[o := Org(name, description, false)] && db.projects == old(db).projects
    {
      ghost var before := World();
      if !ValidName(name) {
        r := Err(Invalid);
      } else if exists q | q in db.orgs :: db.orgs[q].name == name {
        r := Err(Constraint);
      } else {
        r := InsertOrg(name, description, o, f, now);
      }
      T.CreateOrgKeepsInv(before, name, description, o, f, now);
      OutcomeKeepsInv(before, World(), T.CreateOrg(before, name, description, o, f, now), r, reliable);
    }

    method InsertOrg(name: string, description: string, o: Uuid, f: Uuid, now: int) returns (r: Result<Uuid>)
      modifies this
      ensures Outcome(old(World()), World(), Ok(AddOrg(old(World()), o, f, name, description, now)), r, reliable)
      ensures r.Ok? ==> r.value == o
    {
      var tx, next := db, nextId;
      tx := tx.(orgs := tx.orgs[o := Org(name, description, false)]);
      var down := Fails(reliable);
      if down {
        return Err(Unavailable);
      }
      tx := tx.(folders := tx.folders[f := Folder("default", o)]);
      down := Fails(reliable);
      if down {
        return Err(Unavailable);
      }
      var e := Event(next, Created, OrgKind, o, name, None, None, None, now);
      tx, next := tx.(events := tx.events + [e]), next + 1;
      down := Fails(reliable);
      if down {
        nextId := next;
        return Err(Unavailable);
      }
      db, nextId, log, used := tx, next, log + [e], used + {o, f};
      return Ok(o);
    }

    method QueryOrg(name: string) returns (r: Result<Uuid>)
      requires Valid()
      ensures r == (match T.FindOrg(db, name) case None => Err(NotFound) case Some(o) => Ok(o))
           || (!reliable && r == Err(Unavailable))
    {
      var down := Fails(reliable);
      if down {
        return Err(Unavailable);
      }
      var found := set o | o in db.orgs && !db.orgs[o].deleted && db.orgs[o].name == name;
      if found == {} {
        forall o ensures !IsOrg(db, name, o) { assert o !in found; }
        return Err(NotFound);
      }
      var o :| o in found;
      T.FindOrgIsUnique(db, name, o);
      return Ok(o);
    }

    method QueryDefaultFolder(o: Uuid) returns (r: Result<Uuid>)
      requires Valid()
      ensures r.Ok? ==> T.IsDefaultFolder(db, o, r.value) && forall g :: T.IsDefaultFolder(db, o, g) ==> g == r.value
      ensures r.Err? ==> || (r.error == NotFound && forall f :: !T.IsDefaultFolder(db, o, f))
                         || (!reliable && r.error == Unavailable)
    {
      var down := Fails(reliable);
      if down {
        return Err(Unavailable);
      }
      var found := set f | f in db.folders && db.folders[f].name == "default" && db.folders[f].org == o;
      assert forall f :: f in found <==> T.IsDefaultFolder(db, o, f);
      if found == {} {
        return Err(NotFound);
      }
      var f :| f in found;
      return Ok(f);
    }

    method CreateProject(orgName: string, name: string, description: string, p: Uuid, now: int)
          returns (r: Result<Uuid>)
      requires Valid() && Timely(World(), now) && Fresh(World(), p)
      modifies this
      ensures Valid()
      ensures Outcome(old(World()), World(), T.CreateProject(old(World()), orgName, name, description, p, now), r,
          reliable)
      ensures r.Ok? ==> r.value == p && ProjectCreated(old(db), db, orgName, name, description, p)
      ensures r.Err? ==> CreationRefused(old(db), orgName, name, r.error)
    {
      ghost var before := World();
      r := CreateProjectUnder(orgName, name, description, p, now);
      CreationMeans(before, orgName, name, description, p, now);
      RefusalMeans(before, orgName, name, description, p, now);
      T.CreateProjectKeepsInv(before, orgName, name, description, p, now);
      OutcomeKeepsInv(before, World(), T.CreateProject(before, orgName, name, description, p, now), r, reliable);
    }

    method CreateProjectUnder(orgName: string, name: string, description: string, p: Uuid, now: int)
          returns (r: Result<Uuid>)
      requires Valid()
      modifies this
      ensures Outcome(old(World()), World(), T.CreateProject(old(World()), orgName, name, description, p, now), r,
          reliable)
      ensures r.Ok? ==> r.value == p
    {
      var org := QueryOrg(orgName);
      if org.Err? {
        return Err(org.error);
      }
      var home := QueryDefaultFolder(org.value);
      if home.Err? {
        return Err(home.error);
      }
      var f := home.value;
      if !ValidName(name) {
        r := Err(Invalid);
      } else if exists q | q in db.projects :: db.projects[q].folder == f && db.projects[q].name == name {
        r := Err(Constraint);
      } else {
        r := InsertProject(org.value, f, name, description, p, now);
      }
    }

    method InsertProject(o: Uuid, f: Uuid, name: string, description: string, p: Uuid, now: int)
          returns (r: Result<Uuid>)
      requires o in db.orgs && f in db.folders && db.folders[f].org == o
      modifies this
      ensures Outcome(old(World()), World(), Ok(AddProject(old(World()), p, f, name, description, now)), r, reliable)
      ensures r.Ok? ==> r.value == p
    {
      var tx, next := db, nextId;
      tx := tx.(projects := tx.projects[p := Project(name, description, f, false)]);
      var down := Fails(reliable);
      if down {
        return Err(Unavailable);
      }
      var e := Event(next, Created, ProjectKind, p, name, Some(o), Some(tx.orgs[o].name), Some(f), now);
      tx, next := tx.(events := tx.events + [e]), next + 1;
      down := Fails(reliable);
      if down {
        nextId := next;
        return Err(Unavailable);
      }
      db, nextId, log, used := tx, next, log + [e], used + {p};
      return Ok(p);
    }

    method UpdateOrg(name: string, description: string) returns (r: Result<Uuid>)
      requires Valid()
      modifies this
      ensures Valid()
      ensures Outcome(old(World()), World(), T.UpdateOrg(old(World()), name, description), r, reliable)
      ensures r.Ok? ==> && db == old(db).(orgs := db.orgs) && log == old(log) && nextId == old(nextId)
                        && OrgsBut(old(db), db, r.value) && IsOrg(old(db), name, r.value) && IsOrg(db, name, r.value)
                        && db.orgs[r.value].description == description
    {
      ghost var spec := T.UpdateOrg(World(), name, description);
      label Transaction: {
        var org := QueryOrg(name);
        if org.Err? {
          r := Err(org.error);
          break Transaction;
        }
        var o := org.value;
        var tx := db.(orgs := db.orgs[o := db.orgs[o].(description := description)]);
        var down := Fails(reliable);
        if down {
          r := Err(Unavailable);
          break Transaction;
        }
        db, r := tx, Ok(o);
      }
      T.UpdatesKeepInv(old(World()), name, None, description);
      OutcomeKeepsInv(old(World()), World(), spec, r, reliable);
    }

    /** Deletes an org and, before it, its active projects. Each row is updated only where it is not
        deleted yet; a row that is already deleted is passed over, and for the org itself that is an
        error. */
    method DeleteOrg(name: string, now: int) returns (r: Result<Uuid>, ghost order: seq<Uuid>)
      requires Valid() && Timely(World(), now)
      modifies this
      ensures Valid()
      ensures Outcome(old(World()), World(), T.DeleteOrg(old(World()), name, order, now), r, reliable)
      ensures r.Ok? || reliable ==>
                var o := T.FindOrg(old(db), name); o.Some? ==> Lists(order, ActiveProjectsOf(old(db), o.value))
      ensures r.Ok? ==> OrgDeleted(old(db), db, name, r.value)
    {
      ghost var before := World();
      order := [];
      var org := QueryOrg(name);
      if org.Err? {
        return Err(org.error), [];
      }
      var active := QueryActiveProjects(org.value);
      if active.Err? {
        return Err(active.error), [];
      }
      order := active.value;
      OrgDeletionMeans(before, name, org.value, order, now);
      r := SoftDelete(org.value, active.value, now);
      T.DeleteOrgKeepsInv(before, name, order, now);
      OutcomeKeepsInv(before, World(), T.DeleteOrg(before, name, order, now), r, reliable);
    }

    method SoftDelete(o: Uuid, active: seq<Uuid>, now: int) returns (r: Result<Uuid>)
      requires o in db.orgs && !db.orgs[o].deleted && Lists(active, ActiveProjectsOf(db, o))
      modifies this
      ensures Outcome(old(World()), World(), Ok(DropOrg(old(World()), o, active, now)), r, reliable)
      ensures r.Ok? ==> r.value == o
    {
      var tx, next, ok, history := SoftDeleteAll(o, active, now);
      DropProjectsKeepsOrgs(World(), active, now);
      if !ok {
        nextId := next;
        return Err(Unavailable);
      }
      var n := if o in tx.orgs && !tx.orgs[o].deleted then 1 else 0;
      if n == 0 {
        return Err(NotFound);
      }
      var row := tx.orgs[o];
      tx := tx.(orgs := tx.orgs[o := row.(deleted := true)]);
      var e := Event(next, Deleted, OrgKind, o, row.name, None, None, None, now);
      tx, next := tx.(events := tx.events + [e]), next + 1;
      var down := Fails(reliable);
      if down {
        nextId := next;
        return Err(Unavailable);
      }
      db, nextId, log := tx, next, history + [e];
      return Ok(o);
    }

    method QueryActiveProjects(o: Uuid) returns (r: Result<seq<Uuid>>)
      ensures r.Ok? ==> Lists(r.value, ActiveProjectsOf(db, o))
      ensures r.Err? ==> r.error.Unavailable? && !reliable
    {
      var down := Fails(reliable);
      if down {
        return Err(Unavailable);
      }
      var found := set p | p in db.projects && !db.projects[p].deleted
                           && db.projects[p].folder in db.folders && db.folders[db.projects[p].folder].org == o;
      assert found == ActiveProjectsOf(db, o);
      var order := Listing(found);
      return Ok(order);
    }

    /** The loop over an org's projects, on the transaction's copy of the tables. */
    method SoftDeleteAll(o: Uuid, active: seq<Uuid>, now: int)
      returns (tx: Db, next: nat, ok: bool, ghost history: seq<Event>)
      requires o in db.orgs && Lists(active, ActiveProjectsOf(db, o))
      ensures nextId <= next && (reliable ==> ok)
      ensures ok ==> Worlds.World(tx, next, history, used) == DropProjects(World(), active, now)
    {
      tx, next, history := db, nextId, log;
      assert AllActive(World(), active);
      for i := 0 to |active|
        invariant nextId <= next
        invariant Worlds.World(tx, next, history, used) == DropProjects(World(), active[..i], now)
      {
        var p := active[i];
        assert p in ActiveProjectsOf(db, o);
        assert active[..i + 1] == active[..i] + [p];
        DropProjectsSnoc(World(), active, now, i);
        RowsInCascade(World(), active, now, i);
        var n := if p in tx.projects && !tx.projects[p].deleted then 1 else 0;
        if n == 0 {
          continue;
        }
        var row := tx.projects[p];
        tx := tx.(projects := tx.projects[p := row.(deleted := true)]);
        var e := Event(next, Deleted, ProjectKind, p, row.name, Some(o), Some(tx.orgs[o].name), Some(row.folder), now);
        tx, next, history := tx.(events := tx.events + [e]), next + 1, history + [e];
        var down := Fails(reliable);
        if down {
          return tx, next, false, history;
        }
      }
      assert active[..|active|] == active;
      ok := true;
    }

    /** The active project of the given name in scope, read through the guard for the empty scope and
        a filter that only a non-empty scope adds. */
    method QueryProject(name: string, scope: Option<seq<string>>) returns (r: Result<Uuid>)
      ensures r == T.FindProject(db, name, scope) || (!reliable && r == Err(Unavailable))
    {
      if scope.Some? && |scope.value| == 0 {
        assert Matching(db, name, scope) == {};
        return Err(NotFound);
      }
      var down := Fails(reliable);
      if down {
        return Err(Unavailable);
      }
      var found := set p | p in db.projects && db.projects[p].name == name && !db.projects[p].deleted;
      if scope.Some? && |scope.value| > 0 {
        found := set p | p in found && db.projects[p].folder in db.folders
                         && db.folders[db.projects[p].folder].org in db.orgs
                         && db.orgs[db.folders[db.projects[p].folder].org].name in scope.value
                         && !db.orgs[db.folders[db.projects[p].folder].org].deleted;
      }
      assert found == Matching(db, name, scope);
      r := Only(found);
    }

    method DeleteProject(name: string, scope: Option<seq<string>>, now: int) returns (r: Result<Uuid>)
      requires Valid() && Timely(World(), now)
      modifies this
      ensures Valid()
      ensures Outcome(old(World()), World(), T.DeleteProject(old(World()), name, scope, now), r, reliable)
      ensures r.Ok? ==> Matching(old(db), name, scope) == {r.value} && ProjectDeleted(old(db), db, r.value)
    {
      ghost var before := World();
      var found := QueryProject(name, scope);
      if found.Err? {
        return Err(found.error);
      }
      assert found.value in Matching(db, name, scope);
      ProjectDeletionMeans(before, found.value, now);
      r := SoftDeleteProject(found.value, now);
      T.DeleteProjectKeepsInv(before, name, scope, now);
      OutcomeKeepsInv(before, World(), T.DeleteProject(before, name, scope, now), r, reliable);
    }

    method SoftDeleteProject(p: Uuid, now: int) returns (r: Result<Uuid>)
      requires p in db.projects && !db.projects[p].deleted
      modifies this
      ensures Outcome(old(World()), World(), Ok(DropProject(old(World()), p, now)), r, reliable)
      ensures r.Ok? ==> r.value == p
    {
      var tx, next := db, nextId;
      var n := if p in tx.projects && !tx.projects[p].deleted then 1 else 0;
      if n == 0 {
        return Err(NotFound);
      }
      var row := tx.projects[p];
      var folder := if row.folder in tx.folders then Some(row.folder) else None;
      var org := OrgOf(tx, row);
      var orgName := if org.Some? then Some(tx.orgs[org.value].name) else None;
      tx := tx.(projects := tx.projects[p := row.(deleted := true)]);
      var e := Event(next, Deleted, ProjectKind, p, row.name, org, orgName, folder, now);
      tx, next := tx.(events := tx.events + [e]), next + 1;
      var down := Fails(reliable);
      if down {
        nextId := next;
        return Err(Unavailable);
      }
      db, nextId, log := tx, next, log + [e];
      return Ok(p);
    }

    method UpdateProject(name: string, scope: Option<seq<string>>, description: string) returns (r: Result<Uuid>)
      requires Valid()
      modifies this
      ensures Valid()
      ensures Outcome(old(World()), World(), T.UpdateProject(old(World()), name, scope, description), r, reliable)
      ensures r.Ok? ==> Matching(old(db), name, scope) == {r.value} && log == old(log) && nextId == old(nextId)
      ensures r.Ok? ==> ProjectRedescribed(old(db), db, r.value, description)
    {
      ghost var before := World();
      r := UpdateProjectRow(name, scope, description);
      UpdateMeans(before, name, scope, description);
      T.UpdatesKeepInv(before, name, scope, description);
      OutcomeKeepsInv(before, World(), T.UpdateProject(before, name, scope, description), r, reliable);
    }

    method UpdateProjectRow(name: string, scope: Option<seq<string>>, description: string) returns (r: Result<Uuid>)
      modifies this
      ensures Outcome(old(World()), World(), T.UpdateProject(old(World()), name, scope, description), r, reliable)
      ensures r.Ok? ==> Matching(old(db), name, scope) == {r.value}
    {
      var found := QueryProject(name, scope);
      if found.Err? {
        return Err(found.error);
      }
      var p := found.value;
      assert p in Matching(db, name, scope);
      var tx := db.(projects := db.projects[p := db.projects[p].(description := description)]);
      var down := Fails(reliable);
      if down {
        return Err(Unavailable);
      }
      db := tx;
      return Ok(p);
    }

    method CleanupOldEvents(cutoff: int) returns (r: Result<nat>)
      requires Valid()
      modifies this
      ensures Valid()
      ensures World() == if r.Ok? then Truncate(old(World()), cutoff) else old(World())
      ensures r.Ok? ==> r.value == |old(db).events| - |db.events|
      ensures r.Err? ==> r.error.Unavailable? && !reliable
    {
      TruncateKeepsInv(World(), cutoff);
      var down := Fails(reliable);
      if down {
        return Err(Unavailable);
      }
      var kept: seq<Event> := Recent(db.events, cutoff);
      r := Ok(|db.events| - |kept|);
      db := db.(events := kept);
    }

    // --- Controller status rows ---

    method UpsertControllerStatus(k: StatusKey, row: StatusRow) returns (r: Result<()>)
      modifies this
      ensures World() == if r.Ok? then old(World()).(db := old(db).(statuses := old(db).statuses[k := row]))
          else old(World())
      ensures r.Err? ==> r.error.Unavailable? && !reliable
    {
      var down := Fails(reliable);
      if down {
        return Err(Unavailable);
      }
      if k in db.statuses {
        db := db.(statuses := db.statuses[k := row]);
        return Ok(());
      }
      down := Fails(reliable);
      if !down {
        db := db.(statuses := db.statuses[k := row]);
        return Ok(());
      }
      return Err(Unavailable);   // undisturbed, the second update finds no row either
    }

    method DeleteControllerStatus(k: StatusKey) returns (r: Result<()>)
      modifies this
      ensures World() == if r.Ok? then old(World()).(db := old(db).(statuses := old(db).statuses - {k}))
          else old(World())
      ensures r.Err? ==> r.error.Unavailable? && !reliable
    {
      var down := Fails(reliable);
      if down {
        return Err(Unavailable);
      }
      db := db.(statuses := db.statuses - {k});
      return Ok(());
    }

    // --- Hard deletion ---

    /** False also when the query fails. */
    method HasNoRegisteredStatuses(cfg: Config, kind: Kind, id: Uuid) returns (none: bool)
      ensures none ==> C.Unreported(db, cfg, kind, id)
      ensures reliable || cfg.For(kind) == [] ==> (none <==> C.Unreported(db, cfg, kind, id))
    {
      if |cfg.For(kind)| == 0 {
        return true;
      }
      var down := Fails(reliable);
      if down {
        return false;
      }
      var reporting := set c | c in cfg.For(kind) && StatusKey(c, kind, id) in db.statuses;
      none := |reporting| == 0;
      if !none {
        var c :| c in reporting;
        assert !C.Unreported(db, cfg, kind, id);
      } else {
        forall c | c in cfg.For(kind) ensures StatusKey(c, kind, id) !in db.statuses { assert c !in reporting; }
      }
    }

    /** A failure of the statement is ignored. */
    method CleanOrphanedStatuses(cfg: Config, kind: Kind, id: Uuid)
      modifies this`db
      ensures db == C.WithoutOrphans(old(db), cfg, kind, id) || (!reliable && db == old(db))
    {
      if |cfg.For(kind)| == 0 {
        assert C.WithoutOrphans(db, cfg, kind, id).statuses == db.statuses;
        return;
      }
      var down := Fails(reliable);
      if down {
        return;
      }
      db := db.(statuses := map k | k in db.statuses
                                    && !(k.kind == kind && k.id == id && k.controller !in cfg.For(kind))
                               :: db.statuses[k]);
    }

    /** One pass with nobody else at work. Whatever fails, it removes the rows of nothing but what is
        soft-deleted; when nothing fails it removes exactly what the specification says. */
    method CleanupHardDelete(cfg: Config) returns (r: Result<()>)
      requires Valid()
      modifies this`db
      ensures Valid() && Pruned(old(db), db)
      ensures r.Err? ==> r.error.Unavailable? && !reliable
      ensures reliable ==> db == C.Sweep(old(db), cfg)
    {
      ghost var start := db;
      r := SweepProjects(cfg);
      if r.Err? {
        return;
      }
      assert reliable ==> db.orgs == start.orgs;
      r := SweepOrgs(cfg, start);
    }

    method SweepProjects(cfg: Config) returns (r: Result<()>)
      requires Valid()
      modifies this`db
      ensures Valid() && Pruned(old(db), db)
      ensures r.Err? ==> r.error.Unavailable? && !reliable
      ensures reliable ==> db == C.Purge(old(db), cfg, C.DoomedProjects(old(db), cfg), {})
    {
      ghost var start := db;
      var down := Fails(reliable);
      if down {
        return Err(Unavailable);
      }
      var dead := Listing(set p | p in db.projects && db.projects[p].deleted);
      C.NoneAmong(start, cfg, dead);
      for i := 0 to |dead|
        invariant Valid() && Pruned(start, db)
        invariant reliable ==> db == C.WithoutProjects(start, cfg, dead[..i])
      {
        SweepNextProject(cfg, start, dead, i);
      }
      C.AllProjects(start, cfg, dead);
      return Ok(());
    }

    method SweepNextProject(cfg: Config, ghost start: Db, dead: seq<Uuid>, i: nat)
      requires Valid() && Pruned(start, db) && i < |dead| && dead[i] in DeletedProjects(start)
      requires reliable ==> db == C.WithoutProjects(start, cfg, dead[..i])
      modifies this`db
      ensures Valid() && Pruned(start, db)
      ensures reliable ==> db == C.WithoutProjects(start, cfg, dead[..i + 1])
    {
      C.AnotherProject(start, cfg, dead, i);
      PrunedStaysDead(start, World(), Resource(ProjectKind, dead[i]));
      ghost var before := db;
      SweepProject(cfg, dead[i]);
      PrunedTwice(start, before, db);
    }

    method SweepProject(cfg: Config, p: Uuid)
      requires Valid() && Resource(ProjectKind, p) !in World().View().live
      modifies this`db
      ensures Valid() && Pruned(old(db), db)
      ensures reliable ==>
                db == C.AfterProject(old(db), cfg, p)
    {
      var none := HasNoRegisteredStatuses(cfg, ProjectKind, p);
      if none {
        CleanOrphanedStatuses(cfg, ProjectKind, p);
        StatusesKeepInv(old(World()), db.statuses);
        var down := Fails(reliable);
        if !down {
          EraseProjectKeepsInv(World(), p);
          db := db.(projects := db.projects - {p});
        }
      }
    }

    method SweepOrgs(cfg: Config, ghost start: Db) returns (r: Result<()>)
      requires Valid() && Pruned(start, db)
      requires reliable ==> db == C.Purge(start, cfg, C.DoomedProjects(start, cfg), {})
      requires reliable ==> db.orgs == start.orgs
      modifies this`db
      ensures Valid() && Pruned(start, db)
      ensures r.Err? ==> r.error.Unavailable? && !reliable
      ensures reliable ==> db == C.Sweep(start, cfg)
    {
      var listed := QueryDeletedOrgs(start);
      if listed.Err? {
        return Err(listed.error);
      }
      var dead := listed.value;
      C.NoOrgAmong(start, cfg, dead);
      for i := 0 to |dead|
        invariant Valid() && Pruned(start, db)
        invariant reliable ==> db == C.WithoutOrgs(start, cfg, dead[..i])
      {
        SweepNextOrg(cfg, start, dead, i);
      }
      if reliable { C.AllOrgs(start, cfg, dead); }
      return Ok(());
    }

    method QueryDeletedOrgs(ghost start: Db) returns (r: Result<seq<Uuid>>)
      requires Pruned(start, db)
      ensures r.Err? ==> r.error.Unavailable? && !reliable
      ensures r.Ok? ==> Lists(r.value, DeletedOrgs(db)) && forall o :: o in r.value ==> o in DeletedOrgs(start)
    {
      var down := Fails(reliable);
      if down {
        return Err(Unavailable);
      }
      var dead := Listing(set o | o in db.orgs && db.orgs[o].deleted);
      return Ok(dead);
    }

    method SweepNextOrg(cfg: Config, ghost start: Db, dead: seq<Uuid>, i: nat)
      requires Valid() && Pruned(start, db) && i < |dead| && dead[i] in DeletedOrgs(start)
      requires forall j, k :: 0 <= j < k < |dead| ==> dead[j] != dead[k]
      requires reliable ==> db == C.WithoutOrgs(start, cfg, dead[..i])
      modifies this`db
      ensures Valid() && Pruned(start, db)
      ensures reliable ==> db == C.WithoutOrgs(start, cfg, dead[..i + 1])
    {
      C.AnotherOrg(start, cfg, dead, i);
      PrunedStaysDead(start, World(), Resource(OrgKind, dead[i]));
      ghost var before := db;
      SweepOrg(cfg, dead[i]);
      PrunedTwice(start, before, db);
    }

    /** The org goes with its folders, unless a project row is left, a controller reports on it, or a
        statement fails; the foreign key keeps the org while a folder is left. */
    method SweepOrg(cfg: Config, o: Uuid)
      requires Valid() && Resource(OrgKind, o) !in World().View().live
      modifies this`db
      ensures Valid() && Pruned(old(db), db)
      ensures reliable ==>
                db == C.AfterOrg(old(db), cfg, o)
    {
      var down := Fails(reliable);
      var projects := set p | p in db.projects && db.projects[p].folder in db.folders
                              && db.folders[db.projects[p].folder].org == o;
      assert projects == ProjectsOf(db, o);
      if down || |projects| > 0 {
        return;
      }
      var none := HasNoRegisteredStatuses(cfg, OrgKind, o);
      if none {
        CleanOrphanedStatuses(cfg, OrgKind, o);
        StatusesKeepInv(old(World()), db.statuses);
        assert ProjectsOf(db, o) == {};
        RemoveFolders(o);
        RemoveOrg(o);
      }
    }

    method RemoveFolders(o: Uuid)
      requires Valid() && Resource(OrgKind, o) !in World().View().live && ProjectsOf(db, o) == {}
      modifies this`db
      ensures Valid() && db == old(db).(folders := db.folders) && db.folders.Keys <= old(db).folders.Keys
      ensures reliable ==> db.folders == C.FoldersBut(old(db), o)
    {
      var down := Fails(reliable);
      if !down {
        EraseFoldersKeepsInv(World(), o);
        C.ErasedFolders(World(), o);
        db := db.(folders := map f | f in db.folders && db.folders[f].org != o :: db.folders[f]);
      }
    }

    method RemoveOrg(o: Uuid)
      requires Valid() && Resource(OrgKind, o) !in World().View().live
      modifies this`db
      ensures Valid() && (db == old(db) || db == old(db).(orgs := old(db).orgs - {o}))
      ensures reliable && FoldersOf(old(db), o) == {} ==> db == old(db).(orgs := old(db).orgs - {o})
    {
      var down := Fails(reliable);
      var blocked := exists f | f in db.folders :: db.folders[f].org == o;
      assert blocked ==> FoldersOf(db, o) != {} by {
        if f :| f in db.folders && db.folders[f].org == o { assert f in FoldersOf(db, o); }
      }
      if !down && !blocked {
        assert FoldersOf(db, o) == {};
        EraseOrgKeepsInv(World(), o);
        db := db.(orgs := db.orgs - {o});
      }
    }
  }
}
