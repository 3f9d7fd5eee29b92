/** Whether the realm can be told from the configuration to follow the store exactly: which names are left
    behind when the last org or project is deleted. */
module Leftovers {
  import opened Tenancy
  import opened EventLog
  import opened Worlds
  import opened Fleets
  import opened Keycloak
  import opened Handlers
  import opened EndToEnd
  import opened RealmRuns
  import opened Witnesses
  import K = Controllers
  import T = Transactions

  // --- A realm that does what it is asked ---

  ghost function Obeys(b: Blueprint, c: K.Controller, a: Action, items: set<Item>): set<Item> {
    if a.Deliver? && c.backlog != [] then
      if c.backlog[0].change.Created? then items + Wanted(b, c.backlog[0])
      else Without(items, c.backlog[0].resource)
    else items
  }

  ghost function History(b: Blueprint, s: System, actions: seq<Action>): (states: seq<System>)
    ensures |states| == |actions| + 1
  {
    if actions == [] then [s]
    else
      var n := |actions| - 1;
      var before := History(b, s, actions[..n]);
      before + [System(Next(before[n].fleet, actions[n]), Obeys(b, before[n].fleet.ctl, actions[n], before[n].items))]
  }

  lemma ItemsAreSound(groups: Groups, o: string, p: string)
    ensures Sound(ItemsOf(groups, o, p))
  {
    forall x, y | Grant(x, y) in ItemsOf(groups, o, p)
      ensures Group(x) in ItemsOf(groups, o, p) && Role(y) in ItemsOf(groups, o, p)
    {
      var g :| g in groups && Grant(x, y) in ItemsFor(g, groups[g], o, p);
      assert Group(x) in ItemsFor(g, groups[g], o, p) && Role(y) in ItemsFor(g, groups[g], o, p);
    }
  }

  lemma WantedIsSound(b: Blueprint, e: Event)
    ensures Sound(Wanted(b, e))
  {
    ItemsAreSound(b.org, e.resource, "");
    ItemsAreSound(b.project, if e.orgId.Some? then e.orgId.value else "", e.resource);
  }

  lemma ObeyingIsHandling(b: Blueprint, c: K.Controller, a: Action, items: set<Item>)
    requires Sound(items)
    ensures Sound(Obeys(b, c, a, items)) && HandlingStep(b, c, a, items, Obeys(b, c, a, items))
  {
    if a.Deliver? && c.backlog != [] { WantedIsSound(b, c.backlog[0]); }
  }

  lemma TraceAppend(b: Blueprint, cfg: Config, base: set<Item>, states: seq<System>, actions: seq<Action>, a: Action,
        s: System)
    requires Trace(b, cfg, base, states, actions) && Step(b, states[|actions|], a, s)
    ensures Trace(b, cfg, base, states + [s], actions + [a])
  {
    forall i | 0 <= i <= |actions| ensures Step(b, (states + [s])[i], (actions + [a])[i], (states + [s])[i + 1]) {
    }
  }

  lemma {:induction false} HistoryIsTrace(b: Blueprint, cfg: Config, base: set<Item>, actions: seq<Action>)
    requires Sound(base)
    ensures var states := History(b, System(Init(cfg), base), actions);
            Trace(b, cfg, base, states, actions) && Sound(states[|actions|].items)
    decreases |actions|
  {
    if actions != [] {
      var n := |actions| - 1;
      HistoryIsTrace(b, cfg, base, actions[..n]);
      var before := History(b, System(Init(cfg), base), actions[..n]);
      var last := before[n];
      ObeyingIsHandling(b, last.fleet.ctl, actions[n], last.items);
      TraceAppend(b, cfg, base, before, actions[..n], actions[n],
                  System(Next(last.fleet, actions[n]), Obeys(b, last.fleet.ctl, actions[n], last.items)));
      assert actions[..n] + [actions[n]] == actions;
    }
  }

  // --- Exactly when nothing is left behind ---

  /** A controller that has caught up and has no orphans. */
  ghost predicate UpToDate(s: Fleet) {
    K.CaughtUp(s.w, s.ctl) && s.ctl.start <= |s.w.log| && K.Orphans(s.w, s.ctl) == {}
  }

  /** In every run, whenever the controller is up to date, the realm is exactly the base and the items of
      the active resources. */
  ghost predicate AlwaysExact(b: Blueprint, cfg: Config, base: set<Item>) {
    forall states: seq<System>, actions :: Trace(b, cfg, base, states, actions) && UpToDate(states[|actions|].fleet) ==>
      MirrorsExactly(b, base, states[|actions|].fleet.w, states[|actions|].items)
  }

  lemma TraceStart(b: Blueprint, cfg: Config, base: set<Item>, states: seq<System>, actions: seq<Action>, k: nat)
    requires Trace(b, cfg, base, states, actions) && k <= |actions|
    ensures Trace(b, cfg, base, states[..k + 1], actions[..k])
  {
  }

  /** A name without an id that the base does not have is left behind. */
  lemma IsLeftBehind(b: Blueprint, cfg: Config, base: set<Item>, kind: Kind, i: Item)
    requires WellTemplated(b) && BaseOk(base) && i in BareItemsOf(b, kind) && i !in base
    ensures !AlwaysExact(b, cfg, base)
  {
    var first, all := FillsAndEmpties(cfg);
    var states, k := History(b, System(Init(cfg), base), all), |first|;
    HistoryIsTrace(b, cfg, base, all);
    assert all[..k] == first;
    TraceStart(b, cfg, base, states, all, k);
    TraceIsRun(b, cfg, base, states[..k + 1], first);
    IsThereWhile(b, cfg, base, states[..k + 1], first, kind, i);
    IdFreeStays(b, cfg, base, states, all, k, |all|, i);
    TraceIsRun(b, cfg, base, states, all);
    NotExactAtEnd(b, cfg, base, states, all, i);
  }

  lemma NotExactAtEnd(b: Blueprint, cfg: Config, base: set<Item>, states: seq<System>, actions: seq<Action>, i: Item)
    requires Trace(b, cfg, base, states, actions) && Current(states[|actions|].fleet)
    requires i in states[|actions|].items && i !in base && forall r :: !T.IsActive(states[|actions|].fleet.w.db, r)
    ensures !AlwaysExact(b, cfg, base)
  {
    var s := states[|actions|];
    TraceKeepsFleet(b, cfg, base, states, actions, |actions|);
    assert K.Orphans(s.fleet.w, s.fleet.ctl) == {};
    assert UpToDate(s.fleet) && !OfActive(b, s.fleet.w.db, i);
  }

  /** While something of the kind is active the realm has its names without an id. */
  lemma IsThereWhile(b: Blueprint, cfg: Config, base: set<Item>, states: seq<System>, actions: seq<Action>, kind: Kind,
        i: Item)
    requires WellTemplated(b) && BaseOk(base) && i in BareItemsOf(b, kind) && Trace(b, cfg, base, states, actions)
    requires Current(states[|actions|].fleet)
    requires HasActive(states[|actions|].fleet.w.db, kind)
    ensures i in states[|actions|].items && !HasId(i)
  {
    var s := states[|actions|];
    RealmFollowsStore(b, cfg, base, states, actions);
    assert K.Orphans(s.fleet.w, s.fleet.ctl) == {};
    var q: Resource :| q.kind == kind && T.IsActive(s.fleet.w.db, q);
    TablesAgree(b, s.fleet.w);
    ViewHasIds(s.fleet.w);
    LiveHasBareItems(b, s.fleet.w.View(), q);
    MadeAreBare(b, q, i);
    assert OfActive(b, s.fleet.w.db, i);
  }

  /** A condition on templates and base that can be seen beforehand: with clean templates, whatever
      controllers are registered, the realm follows the store exactly in every run if and only if what the
      templates for orgs give without the org's placeholder, and those for projects without the project's,
      is in the base. */
  lemma ExactlyIfProvided(b: Blueprint, cfg: Config, base: set<Item>)
    requires WellTemplated(b) && BaseOk(base)
    ensures AlwaysExact(b, cfg, base) <==> forall kind :: BareItemsOf(b, kind) <= base
  {
    if kind, i :| i in BareItemsOf(b, kind) && i !in base {
      IsLeftBehind(b, cfg, base, kind, i);
    } else {
      forall states: seq<System>, actions |
        Trace(b, cfg, base, states, actions) && UpToDate(states[|actions|].fleet)
        ensures MirrorsExactly(b, base, states[|actions|].fleet.w, states[|actions|].items)
      {
        RealmFollowsStore(b, cfg, base, states, actions);
      }
    }
  }
}
