/** Concrete runs from the empty store: that an org and a project come and go and the controller follows,
    and that a replay can be no picture of any one state. */
module Witnesses {
  import opened Tenancy
  import opened Uuids
  import opened EventLog
  import opened Worlds
  import opened Fleets
  import opened CatchingUp
  import opened Replays
  import K = Controllers
  import T = Transactions

  // --- Putting runs together ---

  lemma {:induction false} RunConcat(s: Fleet, x: seq<Action>, y: seq<Action>)
    ensures Run(s, x + y) == Run(Run(s, x), y)
    decreases |y|
  {
    if y == [] {
      assert x + y == x;
    } else {
      RunConcat(s, x, y[..|y| - 1]);
      assert (x + y)[..|x + y| - 1] == x + y[..|y| - 1];
    }
  }

  lemma RunAppend(s: Fleet, actions: seq<Action>, a: Action)
    ensures Run(s, actions + [a]) == Next(Run(s, actions), a)
  {
    assert (actions + [a])[..|actions|] == actions;
  }

  lemma RunOne(s: Fleet, a: Action)
    ensures Run(s, [a]) == Next(s, a)
  {
    assert [a][..0] == [];
  }

  // --- An org and a project come and go ---

  function Remaining(phase: K.Phase): nat {
    match phase
    case Connecting => 9
    case Orgs => 8
    case Projects => 7
    case Folders(_, _) => 6
    case Parents(_, _, _) => 5
    case DeadProjects => 4
    case DeadFolders(_, _) => 3
    case DeadParents(_, _, _) => 2
    case DeadOrgs => 1
    case Polling => 0
  }

  predicate NoRows(phase: K.Phase) {
    match phase
    case Parents(order, _, _) => order == []
    case Folders(order, _) => order == []
    case DeadFolders(order, _) => order == []
    case DeadParents(order, _, _) => order == []
    case _ => true
  }

  lemma ReadNothing(c: K.Controller)
    requires NoRows(c.phase) && !c.phase.Polling?
    ensures var c' := K.Read(EMPTY_WORLD, c, []);
            Remaining(c'.phase) < Remaining(c.phase) && NoRows(c'.phase) && c'.held == c.held && c'.lost == c.lost
  {
  }

  /** The reads of a session that finds no rows. */
  lemma {:induction false} EmptyReads(s: Fleet) returns (actions: seq<Action>)
    requires s.w == EMPTY_WORLD && NoRows(s.ctl.phase)
    ensures var s' := Run(s, actions);
            s'.w == s.w && s'.ctl.phase.Polling? && s'.ctl.held == s.ctl.held && s'.ctl.lost == s.ctl.lost
    decreases Remaining(s.ctl.phase)
  {
    actions := [];
    if !s.ctl.phase.Polling? {
      ReadNothing(s.ctl);
      RunOne(s, Read([]));
      var rest := EmptyReads(Next(s, Read([])));
      RunConcat(s, [Read([])], rest);
      actions := [Read([])] + rest;
    }
  }

  lemma RoundOfActions(s: Fleet) returns (actions: seq<Action>)
    ensures Run(s, actions) == s.(ctl := Round(s.w, s.ctl)) && Round(s.w, s.ctl).held == s.ctl.held
  {
    RunOne(s, Deliver);
    actions := [Deliver];
    if s.ctl.backlog == [] {
      RunOne(s, Fetch(1));
      RunOne(Next(s, Fetch(1)), Deliver);
      RunConcat(s, [Fetch(1)], [Deliver]);
      actions := [Fetch(1)] + [Deliver];
    }
  }

  /** The next events are fetched one by one and handled, until the controller has caught up. */
  lemma {:induction false} CatchUp(s: Fleet, n: nat) returns (actions: seq<Action>)
    requires EventsInv(s.w) && OnTrack(s.w, s.ctl) && Behind(s.w, s.ctl) == n
    ensures var s' := Run(s, actions);
            s'.w == s.w && OnTrack(s'.w, s'.ctl) && K.CaughtUp(s'.w, s'.ctl) && s'.ctl.held == s.ctl.held
    decreases n
  {
    actions := [];
    if n == 0 {
      BehindIsBounded(s.w, s.ctl);
    } else {
      RoundCloser(s.w, s.ctl);
      var round := RoundOfActions(s);
      var rest := CatchUp(Run(s, round), n - 1);
      RunConcat(s, round, rest);
      actions := round + rest;
    }
  }

  /** An org is created in an empty store. */
  lemma CreatesOrg(o: Uuid, f: Uuid) returns (w: World)
    requires IsUuid(o) && IsUuid(f) && o != f
    ensures w == Request(EMPTY_WORLD, Action.CreateOrg("o", "", o, f, 0)) && w == AddOrg(EMPTY_WORLD, o, f, "o", "", 0)
  {
    w := AddOrg(EMPTY_WORLD, o, f, "o", "", 0);
    assert !OrgNameTaken(EMPTY_WORLD.db, "o");
  }

  /** And a project of it. */
  lemma CreatesProject(w: World, o: Uuid, f: Uuid, p: Uuid) returns (w': World)
    requires IsUuid(o) && IsUuid(f) && IsUuid(p) && o != f && o != p && f != p
    requires w == AddOrg(EMPTY_WORLD, o, f, "o", "", 0)
    ensures w' == Request(w, Action.CreateProject("o", "p", "", p, 0))
    ensures Base(w') == 0 && Timely(w', 0)
    ensures w'.db.orgs == map[o := Org("o", "", false)] && w'.db.folders == map[f := Folder(DEFAULT_FOLDER, o)]
    ensures w'.db.projects == map[p := Project("p", "", f, false)]
  {
    assert IsOrg(w.db, "o", o) && forall x :: IsOrg(w.db, "o", x) ==> x == o;
    assert T.IsDefaultFolder(w.db, o, f) && forall g :: T.IsDefaultFolder(w.db, o, g) ==> g == f;
    assert !T.SlotTaken(w.db, f, "p");
    w' := AddProject(w, p, f, "p", "", 0);
    assert T.CreateProject(w, "o", "p", "", p, 0) == Ok(w');
  }

  /** And both are deleted. */
  lemma DeletesBoth(w: World, o: Uuid, f: Uuid, p: Uuid) returns (w': World)
    requires OrgNamesUnique(w.db.orgs) && Timely(w, 0) && Base(w) == 0
    requires w.db.orgs == map[o := Org("o", "", false)] && w.db.folders == map[f := Folder(DEFAULT_FOLDER, o)]
    requires w.db.projects == map[p := Project("p", "", f, false)]
    ensures w' == Request(w, Action.DeleteOrg("o", [p], 0)) && Base(w') == 0
    ensures forall r :: !T.IsActive(w'.db, r)
  {
    assert IsOrg(w.db, "o", o);
    T.FindOrgIsUnique(w.db, "o", o);
    assert ActiveProjectsOf(w.db, o) == {p};
    DropsOne(w, p);
    w' := DropOrg(w, o, [p], 0);
  }

  lemma DropsOne(w: World, p: Uuid)
    requires p in w.db.projects
    ensures DropProjects(w, [p], 0) == DropProject(w, p, 0)
  {
    assert [p][1..] == [];
  }

  /** A controller that has caught up in its first session. */
  ghost predicate Current(s: Fleet) { K.CaughtUp(s.w, s.ctl) && s.ctl.held == {} }

  function SomeUuid(c: char): (u: Uuid)
    requires IsHex(c)
    ensures IsUuid(u) && u[0] == c
  {
    seq(UUID_LENGTH, i => if IsDashPosition(i) then '-' else c)
  }

  lemma CurrentAgain(cfg: Config, before: seq<Action>) returns (actions: seq<Action>)
    requires var s := Run(Init(cfg), before); s.ctl.phase.Polling? && !s.ctl.lost && s.ctl.held == {} && Base(s.w) == 0
    ensures before <= actions && Current(Run(Init(cfg), actions))
    ensures Run(Init(cfg), actions).w == Run(Init(cfg), before).w
  {
    var s := Run(Init(cfg), before);
    InitInv(cfg);
    Fleets.RunKeepsInv(Init(cfg), before);
    BehindIsBounded(s.w, s.ctl);
    var rest := CatchUp(s, Behind(s.w, s.ctl));
    RunConcat(Init(cfg), before, rest);
    actions := before + rest;
  }

  lemma Fills(cfg: Config, o: Uuid, f: Uuid, p: Uuid) returns (actions: seq<Action>)
    requires IsUuid(o) && IsUuid(f) && IsUuid(p) && o != f && o != p && f != p
    ensures var s := Run(Init(cfg), actions);
            && Current(s) && Base(s.w) == 0 && Timely(s.w, 0)
            && s.w.db.orgs == map[o := Org("o", "", false)] && s.w.db.folders == map[f := Folder(DEFAULT_FOLDER, o)]
            && s.w.db.projects == map[p := Project("p", "", f, false)]
  {
    var first := EmptyReads(Init(cfg));
    var s := Run(Init(cfg), first);
    var x, y := Action.CreateOrg("o", "", o, f, 0), Action.CreateProject("o", "p", "", p, 0);
    var w := CreatesOrg(o, f);
    var w' := CreatesProject(w, o, f, p);
    RunOne(s, x);
    RunConcat(Init(cfg), first, [x]);
    RunOne(Next(s, x), y);
    RunConcat(Init(cfg), first + [x], [y]);
    actions := CurrentAgain(cfg, first + [x] + [y]);
  }

  ghost predicate HasActive(db: Db, kind: Kind) { exists q: Resource :: q.kind == kind && T.IsActive(db, q) }

  lemma BothAreActive(db: Db, o: Uuid, f: Uuid, p: Uuid)
    requires db.orgs == map[o := Org("o", "", false)] && db.projects == map[p := Project("p", "", f, false)]
    ensures forall kind :: HasActive(db, kind)
  {
    forall kind ensures HasActive(db, kind) {
      var q := Resource(kind, if kind.OrgKind? then o else p);
      assert q.kind == kind && T.IsActive(db, q);
    }
  }

  lemma Empties(cfg: Config, first: seq<Action>, o: Uuid, f: Uuid, p: Uuid) returns (actions: seq<Action>)
    requires var s := Run(Init(cfg), first);
             && Current(s) && Base(s.w) == 0 && Timely(s.w, 0) && OrgNamesUnique(s.w.db.orgs)
             && s.w.db.orgs == map[o := Org("o", "", false)] && s.w.db.folders == map[f := Folder(DEFAULT_FOLDER, o)]
             && s.w.db.projects == map[p := Project("p", "", f, false)]
    ensures first <= actions && Current(Run(Init(cfg), actions))
    ensures forall r :: !T.IsActive(Run(Init(cfg), actions).w.db, r)
  {
    var s, a := Run(Init(cfg), first), Action.DeleteOrg("o", [p], 0);
    var w' := DeletesBoth(s.w, o, f, p);
    RunAppend(Init(cfg), first, a);
    actions := CurrentAgain(cfg, first + [a]);
  }

  /** From the empty store to an active org and an active project that the controller has handled, and on
      to a store without active rows that it has handled. */
  lemma FillsAndEmpties(cfg: Config) returns (first: seq<Action>, all: seq<Action>)
    ensures first <= all && Current(Run(Init(cfg), first)) && Current(Run(Init(cfg), all))
    ensures forall kind :: HasActive(Run(Init(cfg), first).w.db, kind)
    ensures forall r :: !T.IsActive(Run(Init(cfg), all).w.db, r)
  {
    var o, f, p := SomeUuid('a'), SomeUuid('b'), SomeUuid('c');
    first := Fills(cfg, o, f, p);
    var db := Run(Init(cfg), first).w.db;
    BothAreActive(db, o, f, p);
    assert OrgNamesUnique(db.orgs);
    all := Empties(cfg, first, o, f, p);
  }

  // --- A replay that is no snapshot ---

  ghost predicate ReadsDead(phase: K.Phase) {
    NoRows(phase) && Remaining(phase) <= 4
  }

  /** The last reads add nothing to the replay when nothing has been deleted. */
  lemma {:induction false} NothingDead(s: Fleet) returns (actions: seq<Action>)
    requires ReadsDead(s.ctl.phase) && DeletedOrgs(s.w.db) == {} && DeletedProjects(s.w.db) == {}
    ensures var s' := Run(s, actions); s'.ctl.phase.Polling? && s'.ctl.replay == s.ctl.replay
    decreases Remaining(s.ctl.phase)
  {
    actions := [];
    if !s.ctl.phase.Polling? {
      RunOne(s, Read([]));
      var c := K.Read(s.w, s.ctl, []);
      assert c.replay == s.ctl.replay;
      var rest := NothingDead(Next(s, Read([])));
      RunConcat(s, [Read([])], rest);
      actions := [Read([])] + rest;
    }
  }

  /** An org and a project of it are created between the read of the orgs and that of the projects. */
  lemma BetweenReads(cfg: Config, o: Uuid, f: Uuid, p: Uuid) returns (actions: seq<Action>)
    requires IsUuid(o) && IsUuid(f) && IsUuid(p) && o != f && o != p && f != p
    ensures var s := Run(Init(cfg), actions);
            && s.ctl.phase.Projects? && s.ctl.replay == []
            && s.w.db.orgs == map[o := Org("o", "", false)] && s.w.db.folders == map[f := Folder(DEFAULT_FOLDER, o)]
            && s.w.db.projects == map[p := Project("p", "", f, false)]
  {
    var x, y := Action.CreateOrg("o", "", o, f, 0), Action.CreateProject("o", "p", "", p, 0);
    var w := CreatesOrg(o, f);
    var w' := CreatesProject(w, o, f, p);
    RunOne(Init(cfg), Read([]));
    RunAppend(Init(cfg), [Read([])], Read([]));
    RunAppend(Init(cfg), [Read([])] + [Read([])], x);
    RunAppend(Init(cfg), [Read([])] + [Read([])] + [x], y);
    actions := [Read([])] + [Read([])] + [x] + [y];
  }

  lemma ReadsOneProject(w: World, c: K.Controller, f: Uuid, p: Uuid)
    requires c.phase.Projects? && c.replay == [] && w.db.projects == map[p := Project("p", "", f, false)]
    ensures var c' := K.Read(w, K.Read(w, K.Read(w, c, [p]), []), []);
            && c'.phase.DeadProjects?
            && |c'.replay| == 1 && c'.replay[0].change.Created? && c'.replay[0].kind.ProjectKind?
  {
    assert ActiveProjects(w.db) == {p};
    assert K.Read(w, c, [p]).phase.Folders?;
    assert K.Read(w, K.Read(w, c, [p]), []).phase.Parents?;
  }

  lemma RunThree(s: Fleet, x: Action, y: Action, z: Action)
    ensures Run(s, [x] + [y] + [z]) == Next(Next(Next(s, x), y), z)
  {
    RunOne(s, x);
    RunAppend(s, [x], y);
    RunAppend(s, [x] + [y], z);
  }

  /** The three reads for the active projects. */
  lemma ReadsProject(s: Fleet, f: Uuid, p: Uuid) returns (actions: seq<Action>)
    requires s.ctl.phase.Projects? && s.ctl.replay == [] && s.w.db.projects == map[p := Project("p", "", f, false)]
    ensures var s' := Run(s, actions);
            && s'.w == s.w && s'.ctl.phase.DeadProjects?
            && |s'.ctl.replay| == 1 && s'.ctl.replay[0].change.Created? && s'.ctl.replay[0].kind.ProjectKind?
  {
    ReadsOneProject(s.w, s.ctl, f, p);
    RunThree(s, Read([p]), Read([]), Read([]));
    actions := [Read([p])] + [Read([])] + [Read([])];
  }

  /** In a snapshot a created project comes after its org. */
  lemma ProjectAloneIsNoSnapshot(replay: seq<Event>, w: World, order: Orders)
    requires Inv(w) && ListsRows(w.db, order)
    requires |replay| == 1 && replay[0].change.Created? && replay[0].kind.ProjectKind?
    ensures replay != Snapshot(w.db, order)
  {
    if replay == Snapshot(w.db, order) { SnapshotOrdersParents(w, order, 0); }
  }

  /** There is a run whose replay announces a project and not its org: it is the snapshot of no state of
      the store, of this run or any other. */
  lemma ReplayIsTorn(cfg: Config) returns (actions: seq<Action>)
    ensures var s := Run(Init(cfg), actions);
            s.ctl.phase.Polling?
            && forall w, order :: Inv(w) && ListsRows(w.db, order) ==> s.ctl.replay != Snapshot(w.db, order)
  {
    var o, f, p := SomeUuid('a'), SomeUuid('b'), SomeUuid('c');
    var first := BetweenReads(cfg, o, f, p);
    var s := Run(Init(cfg), first);
    var next := ReadsProject(s, f, p);
    RunConcat(Init(cfg), first, next);
    var rest := NothingDead(Run(s, next));
    RunConcat(Init(cfg), first + next, rest);
    actions := first + next + rest;
    forall w, order | Inv(w) && ListsRows(w.db, order)
      ensures Run(s, next).ctl.replay != Snapshot(w.db, order)
    {
      ProjectAloneIsNoSnapshot(Run(s, next).ctl.replay, w, order);
    }
  }
}
