/** Runs of the store, the controller and Keycloak together. */
module RealmRuns {
  import opened Tenancy
  import opened Uuids
  import opened EventLog
  import opened Worlds
  import opened Evolution
  import opened Fleets
  import opened Keycloak
  import opened Handlers
  import opened EndToEnd
  import K = Controllers
  import S = Sessions
  import T = Transactions

  datatype System = System(fleet: Fleet, items: set<Item>)

  /** A delivery is a handling that succeeds and an attempt one that ends with an error, in whatever state
      it leaves the realm; nothing else touches the realm. */
  ghost predicate HandlingStep(b: Blueprint, c: K.Controller, a: Action, before: set<Item>, after: set<Item>) {
    if (a.Deliver? || a.Attempt?) && c.backlog != [] then Handles(b, before, after, c.backlog[0], a.Deliver?)
    else after == before
  }

  ghost predicate Step(b: Blueprint, s: System, a: Action, s': System) {
    s'.fleet == Next(s.fleet, a) && HandlingStep(b, s.fleet.ctl, a, s.items, s'.items)
  }

  ghost predicate Trace(b: Blueprint, cfg: Config, base: set<Item>, states: seq<System>, actions: seq<Action>) {
    && |states| == |actions| + 1
    && states[0] == System(Init(cfg), base)
    && forall i :: 0 <= i < |actions| ==> Step(b, states[i], actions[i], states[i + 1])
  }

  ghost predicate RealmOk(b: Blueprint, base: set<Item>, w: World, c: K.Controller, items: set<Item>) {
    Sound(items) && RealmInv(b, base, w.View(), c.regarded, c.delivered, items)
  }

  lemma ViewHasIds(w: World)
    requires WellFormed(w.log) && IdsInv(w)
    ensures Ids(w.View())
  {
    WellFormedIsClosed(w.log);
  }

  lemma NextIsSensible(w: World, c: K.Controller)
    requires IdsInv(w) && K.ReceiptsOk(w, c) && c.backlog != []
    ensures Sensible(w.View(), c.backlog[0])
  {
    assert c.backlog[0] in c.backlog;
    assert K.Plausible(w.View(), w.used, c.backlog[0]);
  }

  lemma ControllerKeepsRealm(b: Blueprint, base: set<Item>, s: System, a: Action, s': System)
    requires WellTemplated(b) && BaseOk(base) && WellFormed(s.fleet.w.log) && IdsInv(s.fleet.w)
        && K.ReceiptsOk(s.fleet.w, s.fleet.ctl)
    requires RealmOk(b, base, s.fleet.w, s.fleet.ctl, s.items) && Step(b, s, a, s')
    requires s'.fleet.w == s.fleet.w
    ensures RealmOk(b, base, s'.fleet.w, s'.fleet.ctl, s'.items)
  {
    var w, c := s.fleet.w, s.fleet.ctl;
    if (a.Deliver? || a.Attempt?) && c.backlog != [] {
      ViewHasIds(w);
      NextIsSensible(w, c);
      if a.Deliver? {
        DeliveryKeepsRealm(b, base, w.View(), c.regarded, c.delivered, s.items, s'.items, c.backlog[0]);
      } else {
        AttemptKeepsRealm(b, base, w.View(), c.regarded, c.delivered, s.items, s'.items, c.backlog[0]);
      }
    } else {
      assert c.regarded == s'.fleet.ctl.regarded;
      assert s'.fleet.ctl.delivered == c.delivered || s'.fleet.ctl.delivered == [];
    }
  }

  lemma StepKeepsRealm(b: Blueprint, base: set<Item>, s: System, a: Action, s': System)
    requires WellTemplated(b) && BaseOk(base) && FleetInv(s.fleet)
        && RealmOk(b, base, s.fleet.w, s.fleet.ctl, s.items) && Step(b, s, a, s')
    ensures FleetInv(s'.fleet) && RealmOk(b, base, s'.fleet.w, s'.fleet.ctl, s'.items)
  {
    NextKeepsInv(s.fleet, a);
    if s'.fleet.w == s.fleet.w {
      ControllerKeepsRealm(b, base, s, a, s');
    } else {
      ViewExtends(s.fleet.w, s'.fleet.w);
      WellFormedIsClosed(s.fleet.w.log);
      StoreKeepsRealm(b, base, s.fleet.w.View(), s'.fleet.w.View(), s.fleet.ctl.regarded, s.fleet.ctl.delivered,
          s.items);
    }
  }

  lemma TracePrefix(b: Blueprint, cfg: Config, base: set<Item>, states: seq<System>, actions: seq<Action>)
    requires Trace(b, cfg, base, states, actions) && actions != []
    ensures var n := |actions|;
            && Trace(b, cfg, base, states[..n], actions[..n - 1])
            && Step(b, states[n - 1], actions[n - 1], states[n])
  {
  }

  lemma {:induction false} TraceKeepsRealm(b: Blueprint, cfg: Config, base: set<Item>, states: seq<System>,
        actions: seq<Action>)
    requires WellTemplated(b) && BaseOk(base) && Trace(b, cfg, base, states, actions)
    ensures var s := states[|actions|]; FleetInv(s.fleet) && RealmOk(b, base, s.fleet.w, s.fleet.ctl, s.items)
    decreases |actions|
  {
    var n := |actions|;
    if n == 0 {
      InitInv(cfg);
    } else {
      TracePrefix(b, cfg, base, states, actions);
      TraceKeepsRealm(b, cfg, base, states[..n], actions[..n - 1]);
      StepKeepsRealm(b, base, states[n - 1], actions[n - 1], states[n]);
    }
  }

  // --- What has no id ---

  /** A handled creation that asks for an item has brought it, if it succeeded or got that far. */
  ghost predicate Brings(b: Blueprint, s: System, a: Action, s': System, i: Item) {
    var backlog := s.fleet.ctl.backlog;
    && backlog != [] && backlog[0].change.Created? && i in Wanted(b, backlog[0])
    && (a.Deliver? || (a.Attempt? && i in s'.items))
  }

  /** One of the first k steps has. */
  ghost predicate Brought(b: Blueprint, states: seq<System>, actions: seq<Action>, k: nat, i: Item)
    requires k <= |actions| < |states|
  {
    exists j :: 0 <= j < k && Brings(b, states[j], actions[j], states[j + 1], i)
  }

  lemma StepBringsExactly(b: Blueprint, s: System, a: Action, s': System, i: Item)
    requires IdsInv(s.fleet.w) && K.ReceiptsOk(s.fleet.w, s.fleet.ctl) && Step(b, s, a, s') && !HasId(i)
    ensures i in s'.items <==> i in s.items || Brings(b, s, a, s', i)
  {
    var backlog := s.fleet.ctl.backlog;
    if (a.Deliver? || a.Attempt?) && backlog != [] {
      NextIsSensible(s.fleet.w, s.fleet.ctl);
      assert IsUuid(backlog[0].resource);
      if backlog[0].change.Deleted? { assert i in s.items ==> i in Without(s.items, backlog[0].resource); }
    }
  }

  lemma {:induction false} TraceKeepsFleet(b: Blueprint, cfg: Config, base: set<Item>, states: seq<System>,
        actions: seq<Action>, k: nat)
    requires Trace(b, cfg, base, states, actions) && k <= |actions|
    ensures FleetInv(states[k].fleet)
    decreases k
  {
    if k == 0 {
      InitInv(cfg);
    } else {
      TraceKeepsFleet(b, cfg, base, states, actions, k - 1);
      NextKeepsInv(states[k - 1].fleet, actions[k - 1]);
      assert Step(b, states[k - 1], actions[k - 1], states[k]);
    }
  }

  lemma BroughtStep(b: Blueprint, states: seq<System>, actions: seq<Action>, k: nat, i: Item)
    requires k < |actions| < |states|
    ensures Brought(b, states, actions, k + 1, i) <==>
        Brought(b, states, actions, k, i) || Brings(b, states[k], actions[k], states[k + 1], i)
  {
  }

  /** At every point of every run, whatever the templates: what is there without an id is what was there in
      the beginning and what a creation has brought so far. Once there it stays. */
  lemma {:induction false} IdFreeExactly(b: Blueprint, cfg: Config, base: set<Item>, states: seq<System>,
        actions: seq<Action>, k: nat, i: Item)
    requires Trace(b, cfg, base, states, actions) && k <= |actions| && !HasId(i)
    ensures i in states[k].items <==> i in base || Brought(b, states, actions, k, i)
    decreases k
  {
    if k > 0 {
      IdFreeExactly(b, cfg, base, states, actions, k - 1, i);
      TraceKeepsFleet(b, cfg, base, states, actions, k - 1);
      assert Step(b, states[k - 1], actions[k - 1], states[k]);
      StepBringsExactly(b, states[k - 1], actions[k - 1], states[k], i);
      BroughtStep(b, states, actions, k - 1, i);
    }
  }

  lemma IdFreeStays(b: Blueprint, cfg: Config, base: set<Item>, states: seq<System>, actions: seq<Action>, j: nat,
        k: nat, i: Item)
    requires Trace(b, cfg, base, states, actions) && j <= k <= |actions| && !HasId(i) && i in states[j].items
    ensures i in states[k].items
  {
    IdFreeExactly(b, cfg, base, states, actions, j, i);
    IdFreeExactly(b, cfg, base, states, actions, k, i);
  }

  // --- Once the controller has caught up ---

  /** A resource born after the session began is created in the log since. */
  lemma BornSince(log: seq<Event>, start: nat, r: Resource)
    requires WellFormed(log) && start <= |log| && r in Fold(log).born && r !in Fold(log[..start]).born
    ensures Handled(log[start..], r)
  {
    FoldIsHistory(log, r);
    var i :| 0 <= i < |log| && log[i].change == Created && log[i].Subject() == r;
    if i < start { SubjectAfter(log, i, start); }
    assert log[i] == log[start..][i - start];
  }

  lemma EveryLiveIsHandled(w: World, c: K.Controller, r: Resource)
    requires WellFormed(w.log) && K.ControllerInv(w, c) && K.CaughtUp(w, c) && r in w.View().live
    ensures Handled(c.delivered, r)
  {
    K.DeliveredIs(w.log, c);
    K.SessionViews(w, c);
    var v0 := K.StartView(w, c);
    if r in v0.born {
      K.LiveBefore(v0, w.View(), r);
      assert K.Mentions(c.replay, Created, r);
      assert Handled(c.replay, r);
    } else {
      BornSince(w.log, c.start, r);
    }
  }

  /** What the tables say a resource should have in the realm. */
  function ItemsOfRow(b: Blueprint, db: Db, r: Resource): set<Item>
    requires T.HasRow(db, r)
  {
    match r.kind
    case OrgKind => ItemsOf(b.org, r.id, "")
    case ProjectKind => var o := OrgOf(db, db.projects[r.id]); ItemsOf(b.project, if o.Some? then o.value else "", r.id)
  }

  lemma RowAndViewAgree(b: Blueprint, w: World, r: Resource)
    requires RowsInv(w.db, w.View()) && FoldersOwned(w.db.folders, w.db.orgs) && T.HasRow(w.db, r)
    ensures ItemsOfRow(b, w.db, r) == ItemsOfResource(b, w.View(), r)
  {
  }

  /** An item of an active org or project, by the tables. */
  ghost predicate OfActive(b: Blueprint, db: Db, i: Item) {
    exists r :: T.IsActive(db, r) && i in ItemsOfRow(b, db, r)
  }

  /** An item without an id, made for something once created, of a kind of which nothing is active. */
  ghost predicate LeftBehind(b: Blueprint, w: World, i: Item) {
    && !HasId(i)
    && exists r :: Has(w.log, Created, r) && Made(b, r, i) && forall q :: T.IsActive(w.db, q) ==> q.kind != r.kind
  }

  /** The realm has what it had in the beginning and everything of the active resources, and besides that
      only what was left behind. */
  ghost predicate Mirrors(b: Blueprint, base: set<Item>, w: World, items: set<Item>) {
    && (forall i :: i in base || OfActive(b, w.db, i) ==> i in items)
    && (forall i :: i in items ==> i in base || OfActive(b, w.db, i) || LeftBehind(b, w, i))
  }

  ghost predicate MirrorsExactly(b: Blueprint, base: set<Item>, w: World, items: set<Item>) {
    forall i :: i in items <==> i in base || OfActive(b, w.db, i)
  }

  /** Nothing of the kind can be left behind: what its templates give without its placeholder is in the
      base, or one of the kind is active, or none was ever created. */
  ghost predicate Settled(b: Blueprint, base: set<Item>, w: World, kind: Kind) {
    || BareItemsOf(b, kind) <= base
    || (exists q :: T.IsActive(w.db, q) && q.kind == kind)
    || (forall r :: Has(w.log, Created, r) ==> r.kind != kind)
  }

  lemma TablesAgree(b: Blueprint, w: World)
    requires Inv(w)
    ensures forall r :: r in w.View().live <==> T.IsActive(w.db, r)
    ensures forall r :: r in w.View().born <==> Has(w.log, Created, r)
    ensures forall r :: T.IsActive(w.db, r) ==> ItemsOfRow(b, w.db, r) == ItemsOfResource(b, w.View(), r)
  {
    forall r ensures r in w.View().live <==> T.IsActive(w.db, r) { T.ActiveIsLive(w.db, w.View(), r); }
    forall r ensures r in w.View().born <==> Has(w.log, Created, r) { FoldIsHistory(w.log, r); }
    forall r | T.IsActive(w.db, r) ensures ItemsOfRow(b, w.db, r) == ItemsOfResource(b, w.View(), r) {
      RowAndViewAgree(b, w, r);
    }
  }

  lemma ViewsOfItems(b: Blueprint, base: set<Item>, w: World)
    requires Inv(w)
    ensures forall i :: OfLive(b, w.View(), i) <==> OfActive(b, w.db, i)
    ensures forall i :: Leftover(b, w.View(), i) ==> LeftBehind(b, w, i)
    ensures forall kind :: Settled(b, base, w, kind) ==> Tight(b, base, w.View(), kind)
  {
    TablesAgree(b, w);
  }

  lemma CaughtUpMirrors(b: Blueprint, base: set<Item>, w: World, c: K.Controller, items: set<Item>)
    requires WellTemplated(b) && Inv(w) && K.ControllerInv(w, c) && RealmOk(b, base, w, c, items)
    requires K.CaughtUp(w, c) && K.Orphans(w, c) == {}
    ensures Mirrors(b, base, w, items)
    ensures Settled(b, base, w, OrgKind) && Settled(b, base, w, ProjectKind) ==> MirrorsExactly(b, base, w, items)
  {
    K.Converges(w, c);
    ViewHasIds(w);
    forall r | r in w.View().live ensures Handled(c.delivered, r) { EveryLiveIsHandled(w, c, r); }
    RealmIsExact(b, base, w.View(), c.regarded, c.delivered, items);
    ViewsOfItems(b, base, w);
    if Settled(b, base, w, OrgKind) && Settled(b, base, w, ProjectKind) {
      forall i | i in items ensures i in base || OfActive(b, w.db, i) { NothingLeftOver(b, base, w.View(), i); }
    }
  }

  /** The realm is the base, the items of the active resources, and those without an id that handled
      creations have brought. */
  ghost predicate MirrorsTrace(b: Blueprint, base: set<Item>, states: seq<System>, actions: seq<Action>)
    requires |states| == |actions| + 1
  {
    var n := |actions|;
    forall i :: i in states[n].items <==>
                i in base || OfActive(b, states[n].fleet.w.db, i) || (!HasId(i) && Brought(b, states, actions, n, i))
  }

  lemma MirrorsTraceExactly(b: Blueprint, cfg: Config, base: set<Item>, states: seq<System>, actions: seq<Action>)
    requires Trace(b, cfg, base, states, actions)
    requires Mirrors(b, base, states[|actions|].fleet.w, states[|actions|].items)
    ensures MirrorsTrace(b, base, states, actions)
  {
    var n := |actions|;
    forall i | !HasId(i) ensures i in states[n].items <==> i in base || Brought(b, states, actions, n, i) {
      IdFreeExactly(b, cfg, base, states, actions, n, i);
    }
  }

  /** The realm follows the store: in every run, once the controller has caught up and has no orphans, the
      realm is exactly the base, the items of the active resources and what was brought without an id; the
      last of a kind of which something is active are items of it, so that where nothing can be left
      behind the realm is exactly the base and the items of the active resources. */
  lemma RealmFollowsStore(b: Blueprint, cfg: Config, base: set<Item>, states: seq<System>, actions: seq<Action>)
    requires WellTemplated(b) && BaseOk(base) && Trace(b, cfg, base, states, actions)
    ensures var s := states[|actions|];
            && FleetInv(s.fleet)
            && (K.CaughtUp(s.fleet.w, s.fleet.ctl) && K.Orphans(s.fleet.w, s.fleet.ctl) == {} ==>
                  && MirrorsTrace(b, base, states, actions)
                  && Mirrors(b, base, s.fleet.w, s.items)
                  && (Settled(b, base, s.fleet.w, OrgKind) && Settled(b, base, s.fleet.w, ProjectKind) ==>
                        MirrorsExactly(b, base, s.fleet.w, s.items)))
  {
    TraceKeepsRealm(b, cfg, base, states, actions);
    var s := states[|actions|];
    if K.CaughtUp(s.fleet.w, s.fleet.ctl) && K.Orphans(s.fleet.w, s.fleet.ctl) == {} {
      CaughtUpMirrors(b, base, s.fleet.w, s.fleet.ctl, s.items);
      MirrorsTraceExactly(b, cfg, base, states, actions);
    }
  }

  lemma {:induction false} TraceIsRun(b: Blueprint, cfg: Config, base: set<Item>, states: seq<System>,
        actions: seq<Action>)
    requires Trace(b, cfg, base, states, actions)
    ensures states[|actions|].fleet == Run(Init(cfg), actions)
    decreases |actions|
  {
    var n := |actions|;
    if n > 0 {
      TracePrefix(b, cfg, base, states, actions);
      TraceIsRun(b, cfg, base, states[..n], actions[..n - 1]);
    }
  }

  /** The same without anything asked of the final state: in every run in which the controller restarts
      only under reports for all it regards as existing, and withdraws them only while it polls, the realm
      mirrors the tables whenever the controller has caught up. */
  lemma RealmFollowsDisciplinedRun(b: Blueprint, cfg: Config, base: set<Item>, k: string, states: seq<System>,
        actions: seq<Action>)
    requires WellTemplated(b) && BaseOk(base) && Trace(b, cfg, base, states, actions)
    requires S.Disciplined(cfg, k, actions)
    ensures var s := states[|actions|];
            K.CaughtUp(s.fleet.w, s.fleet.ctl) ==>
              && MirrorsTrace(b, base, states, actions)
              && Mirrors(b, base, s.fleet.w, s.items)
              && (Settled(b, base, s.fleet.w, OrgKind) && Settled(b, base, s.fleet.w, ProjectKind) ==>
                    MirrorsExactly(b, base, s.fleet.w, s.items))
  {
    TraceIsRun(b, cfg, base, states, actions);
    S.DisciplinedRunsHaveNoOrphans(cfg, k, actions);
    RealmFollowsStore(b, cfg, base, states, actions);
  }
}
